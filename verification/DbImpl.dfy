/** The database object: each method is one step of the state machine, and Get
    computes the layered lookup (db/db_impl.cc). */
module DbImpl {
  import opened Format
  import opened Version
  import opened Builder
  import opened Merge
  import opened Lsm
  import opened LsmLevels
  import opened LsmReads
  import opened LsmRuns
  import opened Compaction

  // ----- one background step

  datatype Manual = Manual(level: nat, begin: Option<UserKey>, end: Option<UserKey>)

  datatype Inputs = Inputs(from: nat, in0: seq<File>, in1: seq<File>, lo: UserKey, hi: UserKey)

  ghost predicate InputsOk(levels: seq<seq<File>>, c: Inputs) {
    && Chosen(levels, c.from, c.in0, c.in1, c.lo, c.hi)
    && InOrder(c.in0) && InOrder(c.in1)
  }

  /** The levels of the requests exist. */
  ghost predicate Requestable(levels: seq<seq<File>>, manual: Option<Manual>, trigger: Trigger) {
    && |levels| == NUM_LEVELS
    && (manual.Some? ==> manual.value.level + 1 < NUM_LEVELS)
    && trigger.level + 1 < NUM_LEVELS && levels[trigger.level] != []
    && (trigger.SeekCompaction? ==> trigger.file in levels[trigger.level])
  }

  /** The inputs are those asked for: of the manual range, which may take no file, or
      those that start from the picked file. */
  ghost predicate AsRequested(levels: seq<seq<File>>, manual: Option<Manual>, trigger: Trigger, c: Option<Inputs>)
    requires Requestable(levels, manual, trigger)
  {
    match manual
    case Some(m) =>
      && (c.None? <==> forall f :: f in levels[m.level] ==> !Overlaps(f, m.begin, m.end))
      && (c.Some? ==> c.value.from == m.level && ManualInputs(levels, m, c.value))
    case None => c.Some? && c.value.from == trigger.level && PickedInputs(levels, trigger, c.value)
  }

  ghost predicate ManualInputs(levels: seq<seq<File>>, m: Manual, c: Inputs)
    requires |levels| == NUM_LEVELS && m.level + 1 < NUM_LEVELS
  {
    exists picked :: TakesRange(levels, m.level, m.begin, m.end, picked)
                     && picked != [] && Grown(levels, m.level, picked, c.in0, c.in1)
  }

  ghost predicate PickedInputs(levels: seq<seq<File>>, trigger: Trigger, c: Inputs)
    requires |levels| == NUM_LEVELS && trigger.level + 1 < NUM_LEVELS && levels[trigger.level] != []
  {
    exists picked :: PicksFrom(levels, trigger, picked) && picked != []
                     && Grown(levels, trigger.level, picked, c.in0, c.in1)
  }

  method ChooseInputs(levels: seq<seq<File>>, manual: Option<Manual>, trigger: Trigger) returns (c: Option<Inputs>)
    requires LevelsShape(levels) && Requestable(levels, manual, trigger)
    ensures c.Some? ==> InputsOk(levels, c.value)
    ensures AsRequested(levels, manual, trigger, c)
  {
    hide Chosen, TakesRange, Grown, PicksFrom;
    if manual.Some? {
      var picked, in0, in1, lo, hi := CompactRange(levels, manual.value.level, manual.value.begin, manual.value.end);
      c := if picked != [] then Some(Inputs(manual.value.level, in0, in1, lo, hi)) else None;
    } else {
      var _, in0, in1, lo, hi := PickCompaction(levels, trigger);
      c := Some(Inputs(trigger.level, in0, in1, lo, hi));
    }
  }

  method MoveDown(ghost s: State, levels: seq<seq<File>>, from: nat, f: File, ghost lo: UserKey, ghost hi: UserKey)
    returns (levels': seq<seq<File>>)
    requires BaseInv(s) && s.db.levels == levels && Chosen(levels, from, [f], [], lo, hi)
    ensures Next(s, TrivialMove(from, f), s.(db := s.db.(levels := levels')))
  {
    TrivialInputs(s, from, f, lo, hi);
    levels' := InstallMove(levels, s.db.nextFile, from, [f], [], f.smallest.user, f.largest.user, [f], s.db.nextFile);
  }

  /** The outputs are cut where the two rules say. */
  ghost predicate OutputsOf(db: Db, c: Inputs, stopBefore: nat -> bool, sizeAfter: nat -> nat, outs: seq<File>)
    requires |db.levels| == NUM_LEVELS
  {
    exists merged :: IsMergeOf(merged, c.in0 + c.in1) && outs == CutOutputs(db, c.from, merged, stopBefore, sizeAfter)
  }

  ghost function CutOutputs(db: Db, from: nat, merged: seq<Entry>, stopBefore: nat -> bool, sizeAfter: nat -> nat)
    : seq<File>
    requires |db.levels| == NUM_LEVELS
  {
    Finished(Outputs(merged, |merged|, SmallestSnapshot(db), db.levels, from, stopBefore, sizeAfter, db.nextFile),
             true).outs
  }

  method RunCompaction(ghost s: State, levels: seq<seq<File>>, nextFile: nat, snapshot: nat, c: Inputs,
                       stopBefore: nat -> bool, sizeAfter: nat -> nat)
    returns (outs: seq<File>, levels': seq<seq<File>>, nextFile': nat)
    requires BaseInv(s) && s.db.levels == levels && s.db.nextFile == nextFile && snapshot == SmallestSnapshot(s.db)
    requires InputsOk(levels, c)
    ensures Next(s, Compact(c.from, c.in0, c.in1, c.lo, c.hi, outs),
                 State(s.db.(levels := levels', nextFile := nextFile'), s.hist,
                       if snapshot > s.floor then snapshot else s.floor))
    ensures OutputsOf(s.db, c, stopBefore, sizeAfter, outs)
  {
    ShapeOf(s);
    var merged := MergeInputs(s, c.from, c.in0, c.in1, c.lo, c.hi);
    outs, nextFile' := DoCompactionWork(levels, c.from, merged, snapshot, stopBefore, sizeAfter, nextFile);
    assert CompactionResult(s.db, c.from, c.in0, c.in1, merged, outs);
    CompactionOuts(s.db, c.from, c.in0, c.in1, merged, outs, nextFile');
    FreshNumbers(s, c.from, outs, nextFile');
    levels' := InstallMove(levels, nextFile, c.from, c.in0, c.in1, c.lo, c.hi, outs, nextFile');
  }

  /** The state after a write: memtable, sequence and history grow together. */
  ghost function Written(s: State, es: seq<Entry>): State {
    State(Db(InsertAll(s.db.mem, es), s.db.imm, s.db.levels, s.db.lastSequence + |es|, s.db.snapshots, s.db.nextFile),
          s.hist + es, s.floor)
  }

  lemma WriteStep(s: State, es: seq<Entry>)
    requires Inv(s) && s.db.lastSequence + |es| < MAX_SEQUENCE && IsBatch(es, s.db.lastSequence)
    ensures Next(s, Step.Write(es), Written(s, es)) && Inv(Written(s, es))
  {
    StepKeeps(s, Step.Write(es), Written(s, es));
  }

  lemma StepKeeps(s: State, step: Step, s': State)
    requires Inv(s) && Next(s, step, s')
    ensures BaseInv(s') && (Inv(s') <==> Clean(s, step))
  {
    hide Inv, Clean, Next, BaseInv;
    InvHasBase(s);
    NextKeepsBase(s, step, s');
    NextIff(s, step, s');
  }

  lemma InvHasBase(s: State)
    requires Inv(s)
    ensures BaseInv(s) && |s.db.levels| == NUM_LEVELS
  {
  }

  // ----- installing an edit (LogAndApply without the manifest)

  function SavedLevel(levels: seq<seq<File>>, edit: VersionEdit, l: nat): seq<File>
    requires |levels| == NUM_LEVELS && l < NUM_LEVELS
  {
    SaveLevel(levels[l], ApplyLevel(EMPTY, AtLevel(edit, l)))
  }

  ghost predicate IsSaved(levels: seq<seq<File>>, edit: VersionEdit, levels': seq<seq<File>>)
    requires |levels| == NUM_LEVELS
  {
    && |levels'| == NUM_LEVELS
    && forall l :: 0 <= l < NUM_LEVELS ==> levels'[l] == SavedLevel(levels, edit, l)
  }

  lemma SavedExists(levels: seq<seq<File>>, edit: VersionEdit) returns (levels': seq<seq<File>>)
    requires |levels| == NUM_LEVELS
    ensures IsSaved(levels, edit, levels')
  {
    levels' := [];
    for l := 0 to NUM_LEVELS
      invariant |levels'| == l && forall m :: 0 <= m < l ==> levels'[m] == SavedLevel(levels, edit, m)
    {
      levels' := levels' + [SavedLevel(levels, edit, l)];
    }
  }

  /** At one level the edit deletes exactly `gone` and adds fresh numbers. */
  ghost predicate EditFits(base: seq<File>, e: LevelEdit, gone: seq<File>) {
    && InOrder(base) && DistinctNumbers(e.adds) && NoSharedNumber(base, e.adds)
    && forall f :: f in base ==> (f.number in e.dels <==> f in gone)
  }

  lemma LevelUpdated(base: seq<File>, e: LevelEdit, gone: seq<File>)
    requires EditFits(base, e, gone)
    ensures var st := ApplyLevel(EMPTY, e);
            && Updated(base, gone, e.adds, SaveLevel(base, st))
            && InOrder(st.added) && NoSharedNumber(base, st.added)
            && forall f :: f in base + st.added && f.number !in st.deleted ==> f in SaveLevel(base, st)
  {
    DistinctIsNamed(e.adds);
    AddAllContents(LevelState(EMPTY.deleted + e.dels, []), e.adds);
    var st := ApplyLevel(EMPTY, e);
    SaveLevelOrder(base, st);
    forall f
      ensures f in SaveLevel(base, st) <==> (f in base && f !in gone) || f in e.adds
    {
      assert f in e.adds ==> f.number in Numbers(e.adds);
      assert f.number in Numbers(e.adds) ==> exists g :: g in e.adds && g.number == f.number;
    }
  }

  lemma LevelSeparated(base: seq<File>, e: LevelEdit, gone: seq<File>)
    requires EditFits(base, e, gone)
    requires Disjoint(SaveLevel(base, ApplyLevel(EMPTY, e))) && AllMeta(SaveLevel(base, ApplyLevel(EMPTY, e)))
    ensures var st := ApplyLevel(EMPTY, e); Separated(base + st.added, st.deleted)
  {
    LevelUpdated(base, e, gone);
    var st := ApplyLevel(EMPTY, e);
    var saved := SaveLevel(base, st);
    forall f, g | f in base + st.added && g in base + st.added && f != g && f.number !in st.deleted
        && g.number !in st.deleted
      ensures MetaOk(f) && MetaOk(g) && (Before(f, g) || Before(g, f))
    {
      SameLevel(saved, f, g);
    }
  }

  lemma ReadyToSave(base: seq<File>, e: LevelEdit, gone: seq<File>, l: nat)
    requires EditFits(base, e, gone)
    requires l > 0 ==> Disjoint(SaveLevel(base, ApplyLevel(EMPTY, e))) && AllMeta(SaveLevel(base, ApplyLevel(EMPTY, e)))
    ensures var st := ApplyLevel(EMPTY, e);
            && InOrder(base) && InOrder(st.added) && NoSharedNumber(base, st.added)
            && (l > 0 ==> Separated(base + st.added, st.deleted))
  {
    LevelUpdated(base, e, gone);
    if l > 0 {
      LevelSeparated(base, e, gone);
    }
  }

  /** The edit deletes `in0` at level `from`, `in1` at the next, and nothing else. */
  ghost predicate EditOk(levels: seq<seq<File>>, edit: VersionEdit, from: nat, in0: seq<File>, in1: seq<File>) {
    && |levels| == NUM_LEVELS
    && (forall p :: p in edit.deleted ==> p.0 < NUM_LEVELS)
    && (forall i :: 0 <= i < |edit.added| ==> edit.added[i].0 < NUM_LEVELS)
    && forall l :: 0 <= l < NUM_LEVELS ==> EditFits(levels[l], AtLevel(edit, l), GoneAt(from, in0, in1, l))
  }

  method SaveOne(builder: VersionBuilder, levels: seq<seq<File>>, edit: VersionEdit, l: nat, ghost gone: seq<File>)
    returns (files: seq<File>)
    requires |levels| == |builder.states| == NUM_LEVELS && l < NUM_LEVELS && builder.base == levels
    requires builder.states[l] == ApplyLevel(EMPTY, AtLevel(edit, l)) && EditFits(levels[l], AtLevel(edit, l), gone)
    requires l > 0 ==> Disjoint(SavedLevel(levels, edit, l)) && AllMeta(SavedLevel(levels, edit, l))
    ensures files == SavedLevel(levels, edit, l)
  {
    ReadyToSave(levels[l], AtLevel(edit, l), gone, l);
    files := builder.SaveLevelTo(l);
  }

  /** The new file lists, through the builder; its overlap assertion holds because
      the resulting levels are disjoint. */
  method InstallEdit(levels: seq<seq<File>>, edit: VersionEdit, ghost from: nat, ghost in0: seq<File>,
                     ghost in1: seq<File>)
    returns (levels': seq<seq<File>>)
    requires EditOk(levels, edit, from, in0, in1)
    requires forall l :: 1 <= l < NUM_LEVELS ==>
               Disjoint(SavedLevel(levels, edit, l)) && AllMeta(SavedLevel(levels, edit, l))
    ensures IsSaved(levels, edit, levels')
  {
    var builder := new VersionBuilder(levels);
    builder.Apply(edit);
    levels' := SaveAll(builder, levels, edit, from, in0, in1);
  }

  method SaveAll(builder: VersionBuilder, levels: seq<seq<File>>, edit: VersionEdit,
                 ghost from: nat, ghost in0: seq<File>, ghost in1: seq<File>)
    returns (levels': seq<seq<File>>)
    requires EditOk(levels, edit, from, in0, in1) && builder.base == levels && |builder.states| == NUM_LEVELS
    requires forall l :: 0 <= l < NUM_LEVELS ==> builder.states[l] == ApplyLevel(EMPTY, AtLevel(edit, l))
    requires forall l :: 1 <= l < NUM_LEVELS ==>
               Disjoint(SavedLevel(levels, edit, l)) && AllMeta(SavedLevel(levels, edit, l))
    ensures IsSaved(levels, edit, levels')
  {
    hide ApplyLevel, SavedLevel, AtLevel, EditFits, Disjoint, AllMeta, GoneAt;
    levels' := [];
    ghost var saved := SavedExists(levels, edit);
    for l := 0 to NUM_LEVELS
      invariant levels' == saved[..l]
    {
      assert saved[..l + 1] == saved[..l] + [saved[l]];
      var files := SaveOne(builder, levels, edit, l, GoneAt(from, in0, in1, l));
      assert files == saved[l];
      levels' := levels' + [files];
    }
    assert levels' == saved;
  }

  function Tagged(level: nat, files: seq<File>): (r: seq<(nat, File)>)
    ensures |r| == |files| && forall i :: 0 <= i < |r| ==> r[i] == (level, files[i])
  {
    if files == [] then [] else Tagged(level, files[..|files| - 1]) + [(level, files[|files| - 1])]
  }

  lemma {:induction false} AddsOfTagged(level: nat, files: seq<File>, l: nat)
    ensures AddsAt(Tagged(level, files), l) == if l == level then files else []
  {
    if files != [] {
      AddsOfTagged(level, files[..|files| - 1], l);
      var t := Tagged(level, files);
      assert t[..|t| - 1] == Tagged(level, files[..|files| - 1]);
    }
  }

  function DeletionsOf(level: nat, files: seq<File>): set<(nat, nat)> {
    set f | f in files :: (level, f.number)
  }

  /** The edit of a compaction or a trivial move. */
  function MoveEdit(from: nat, in0: seq<File>, in1: seq<File>, outs: seq<File>): VersionEdit {
    VersionEdit(DeletionsOf(from, in0) + DeletionsOf(from + 1, in1), Tagged(from + 1, outs))
  }

  ghost function GoneAt(from: nat, in0: seq<File>, in1: seq<File>, l: nat): seq<File> {
    if l == from then in0 else if l == from + 1 then in1 else []
  }

  lemma MoveEditAt(levels: seq<seq<File>>, from: nat, in0: seq<File>, in1: seq<File>, outs: seq<File>, l: nat)
    ensures AtLevel(MoveEdit(from, in0, in1, outs), l) ==
            LevelEdit(Numbers(GoneAt(from, in0, in1, l)), if l == from + 1 then outs else [])
  {
    AddsOfTagged(from + 1, outs, l);
    var deleted := MoveEdit(from, in0, in1, outs).deleted;
    forall n
      ensures n in NumbersAt(deleted, l) <==> n in Numbers(GoneAt(from, in0, in1, l))
    {
      assert n in NumbersAt(deleted, l) <==> (l, n) in deleted;
    }
  }

  lemma MoveEditFits(levels: seq<seq<File>>, nextFile: nat, from: nat, in0: seq<File>, in1: seq<File>, outs: seq<File>,
                     limit: nat)
    requires LevelsOk(levels, nextFile) && from + 1 < NUM_LEVELS && OutsOk(levels, in0 + in1, outs, limit)
    requires (forall f :: f in in0 ==> f in levels[from]) && (forall f :: f in in1 ==> f in levels[from + 1])
    requires NoSharedNumber(levels[from + 1], outs)
    ensures EditOk(levels, MoveEdit(from, in0, in1, outs), from, in0, in1)
  {
    var edit := MoveEdit(from, in0, in1, outs);
    forall l | 0 <= l < NUM_LEVELS
      ensures EditFits(levels[l], AtLevel(edit, l), GoneAt(from, in0, in1, l))
    {
      var gone := GoneAt(from, in0, in1, l);
      MoveEditAt(levels, from, in0, in1, outs, l);
      assert forall g :: g in gone ==> At(levels, l, g);
      forall f | f in levels[l]
        ensures f.number in Numbers(gone) <==> f in gone
      {
        assert At(levels, l, f);
      }
    }
  }

  lemma MoveEditReplaces(levels: seq<seq<File>>, from: nat, in0: seq<File>, in1: seq<File>, outs: seq<File>,
                         levels': seq<seq<File>>)
    requires |levels| == NUM_LEVELS && from + 1 < NUM_LEVELS
    requires EditOk(levels, MoveEdit(from, in0, in1, outs), from, in0, in1)
    requires IsSaved(levels, MoveEdit(from, in0, in1, outs), levels')
    ensures Replaced(levels, from, in0, in1, outs, levels')
  {
    var edit := MoveEdit(from, in0, in1, outs);
    forall l | 0 <= l < NUM_LEVELS
      ensures Updated(levels[l], GoneAt(from, in0, in1, l), if l == from + 1 then outs else [], levels'[l])
      ensures l != from && l != from + 1 ==> levels'[l] == levels[l]
    {
      MoveEditAt(levels, from, in0, in1, outs, l);
      LevelUpdated(levels[l], AtLevel(edit, l), GoneAt(from, in0, in1, l));
      assert levels'[l] == SavedLevel(levels, edit, l);
      if l != from && l != from + 1 {
        OrderDetermines(levels'[l], levels[l]);
      }
    }
  }

  lemma LevelsMeta(levels: seq<seq<File>>, nextFile: nat, l: nat)
    requires LevelsOk(levels, nextFile) && l < NUM_LEVELS
    ensures AllMeta(levels[l])
  {
    assert forall f :: f in levels[l] ==> At(levels, l, f);
  }

  /** Apply the edit of a compaction or move. */
  method InstallMove(levels: seq<seq<File>>, ghost nextFile: nat, from: nat, in0: seq<File>, in1: seq<File>,
                     ghost lo: UserKey, ghost hi: UserKey, outs: seq<File>, ghost limit: nat)
    returns (levels': seq<seq<File>>)
    requires LevelsOk(levels, nextFile) && Chosen(levels, from, in0, in1, lo, hi) && nextFile <= limit
    requires OutsOk(levels, in0 + in1, outs, limit) && NoSharedNumber(levels[from + 1], outs)
    ensures Replaced(levels, from, in0, in1, outs, levels')
  {
    var edit := MoveEdit(from, in0, in1, outs);
    ghost var saved := SavedExists(levels, edit);
    MoveEditFits(levels, nextFile, from, in0, in1, outs, limit);
    MoveEditReplaces(levels, from, in0, in1, outs, saved);
    ReplacedLevelsOk(levels, nextFile, from, in0, in1, lo, hi, outs, limit, saved);
    forall l | 1 <= l < NUM_LEVELS
      ensures Disjoint(SavedLevel(levels, edit, l)) && AllMeta(SavedLevel(levels, edit, l))
    {
      assert saved[l] == SavedLevel(levels, edit, l);
      LevelsMeta(saved, limit, l);
    }
    levels' := InstallEdit(levels, edit, from, in0, in1);
    assert levels' == saved;
  }

  lemma FlushEditAt(levels: seq<seq<File>>, nextFile: nat, f: File, level: nat, l: nat)
    requires LevelsOk(levels, nextFile) && NewFile(levels, nextFile, f) && level < NUM_LEVELS && l < NUM_LEVELS
    ensures AtLevel(VersionEdit({}, Tagged(level, [f])), l) == LevelEdit({}, if l == level then [f] else [])
    ensures EditFits(levels[l], LevelEdit({}, if l == level then [f] else []), [])
  {
    AddsOfTagged(level, [f], l);
    assert NumbersAt({}, l) == {};
    forall g | g in levels[l]
      ensures g.number != f.number
    {
      assert At(levels, l, g);
    }
  }

  lemma FlushEditFits(levels: seq<seq<File>>, nextFile: nat, f: File, level: nat, levels': seq<seq<File>>)
    requires LevelsOk(levels, nextFile) && NewFile(levels, nextFile, f) && level < NUM_LEVELS
    requires IsSaved(levels, VersionEdit({}, Tagged(level, [f])), levels')
    ensures EditOk(levels, VersionEdit({}, Tagged(level, [f])), 0, [], [])
    ensures Updated(levels[level], [], [f], levels'[level])
    ensures forall l :: 0 <= l < NUM_LEVELS && l != level ==> levels'[l] == levels[l]
  {
    var edit := VersionEdit({}, Tagged(level, [f]));
    forall l | 0 <= l < NUM_LEVELS
      ensures EditFits(levels[l], AtLevel(edit, l), [])
      ensures Updated(levels[l], [], if l == level then [f] else [], levels'[l])
      ensures l != level ==> levels'[l] == levels[l]
    {
      FlushEditAt(levels, nextFile, f, level, l);
      LevelUpdated(levels[l], AtLevel(edit, l), []);
      assert levels'[l] == SavedLevel(levels, edit, l);
      if l != level {
        OrderDetermines(levels'[l], levels[l]);
      }
    }
  }

  method InstallFlush(levels: seq<seq<File>>, ghost nextFile: nat, f: File, level: nat)
      returns (levels': seq<seq<File>>)
    requires LevelsOk(levels, nextFile) && NewFile(levels, nextFile, f)
    requires level <= MAX_MEM_COMPACT_LEVEL
             && (level > 0 ==> FreeDownTo(levels, level, f.smallest.user, f.largest.user))
    ensures FlushTo(levels, f, level, levels')
  {
    var edit := VersionEdit({}, Tagged(level, [f]));
    ghost var saved := SavedExists(levels, edit);
    FlushEditFits(levels, nextFile, f, level, saved);
    FlushedLevelsOk(levels, nextFile, f, level, saved);
    forall l | 1 <= l < NUM_LEVELS
      ensures Disjoint(SavedLevel(levels, edit, l)) && AllMeta(SavedLevel(levels, edit, l))
    {
      assert saved[l] == SavedLevel(levels, edit, l);
      LevelsMeta(saved, nextFile + 1, l);
    }
    levels' := InstallEdit(levels, edit, 0, [], []);
    assert levels' == saved;
  }

  /** One file that meets nothing below moves down, if nobody asked for a range and the
      files further down are small; all else is compacted. */
  ghost predicate IsStepOf(db: Db, manual: Option<Manual>, small: bool, stopBefore: nat -> bool, sizeAfter: nat -> nat,
                           c: Inputs, step: Step)
    requires |db.levels| == NUM_LEVELS
  {
    if manual.None? && |c.in0| == 1 && c.in1 == [] && small then step == TrivialMove(c.from, c.in0[0])
    else
      && step.Compact? && step == Compact(c.from, c.in0, c.in1, c.lo, c.hi, step.outs)
      && OutputsOf(db, c, stopBefore, sizeAfter, step.outs)
  }

  lemma AnswersOps(s: State, ops: seq<WriteOp>, u: UserKey, at: nat)
    requires Inv(s) && s.hist == EntriesOf(ops, 1) && (at == s.db.lastSequence || at in s.db.snapshots)
    ensures |s.db.levels| == NUM_LEVELS && at <= |ops|
    ensures AnswerOf(DbGet(s.db, u, at)) == Lookup(ApplyOps(map[], ops[..at]), u)
  {
    hide DbGet, Covered, LevelsOrdered, EntriesOf;
    GetIsPlainMap(s, u, at);
    EntriesPrefix(ops, 1, at);
    ReplayOps([], ops[..at], 1);
    assert [] + EntriesOf(ops[..at], 1) == s.hist[..at];
  }

  /** Get reads the layers only. */
  lemma SameLayers(db: Db, u: UserKey, s: nat)
    requires |db.levels| == NUM_LEVELS
    ensures DbGet(Db(db.mem, db.imm, db.levels, 0, [], 0), u, s) == DbGet(db, u, s)
  {
    hide VersionGet, Hit;
  }

  lemma BaseLevels(s: State)
    requires BaseInv(s)
    ensures LevelsOk(s.db.levels, s.db.nextFile)
  {
  }

  lemma IsFlushStep(s: State, level: nat, size: nat, levels': seq<seq<File>>)
    requires s.db.imm.Some? && |s.db.levels| == NUM_LEVELS
    requires if s.db.imm.value == [] then levels' == s.db.levels
             else FlushTo(s.db.levels, FileOf(s.db.nextFile, size, s.db.imm.value), level, levels')
    ensures Next(s, Flush(level, size), s.(db := s.db.(imm := None, levels := levels', nextFile := s.db.nextFile + 1)))
            && Clean(s, Flush(level, size))
  {
  }

  lemma HistoryLength(s: State)
    requires Inv(s)
    ensures |s.hist| == s.db.lastSequence
  {
  }

  class Database {
    var mem: seq<Entry>
    var imm: Option<seq<Entry>>
    var levels: seq<seq<File>>
    var lastSequence: nat
    var snapshots: seq<nat>
    var nextFile: nat
    ghost var hist: seq<Entry>
    ghost var floor: nat
    ghost var ops: seq<WriteOp>

    ghost function Abs(): State
      reads this
    {
      State(Db(mem, imm, levels, lastSequence, snapshots, nextFile), hist, floor)
    }

    /** The entries of the history are the operations of the callers, one number each. */
    ghost predicate Valid()
      reads this
    {
      Inv(Abs()) && hist == EntriesOf(ops, 1)
    }

    constructor ()
      ensures Abs() == INIT && Valid() && ops == []
    {
      mem, imm, levels := [], None, [[], [], [], [], [], [], []];
      lastSequence, snapshots, nextFile, hist, floor, ops := 0, [], 2, [], 0, [];
      new;
      InitInv();
    }

    /** DBImpl::Write of one batch: consecutive sequence numbers in batch order. */
    method Write(batch: seq<WriteOp>)
      requires Valid() && lastSequence + |batch| < MAX_SEQUENCE
      modifies this
      ensures Next(old(Abs()), Step.Write(EntriesOf(batch, old(lastSequence) + 1)), Abs()) && Valid()
      ensures ops == old(ops) + batch && Replay(hist) == ApplyOps(old(Replay(hist)), batch)
    {
      hide Inv, EntriesOf, InsertAll, IsBatch, Replay;
      EntriesAreBatch(batch, lastSequence);
      WriteStep(Abs(), EntriesOf(batch, lastSequence + 1));
      HistoryLength(Abs());
      EntriesAppend(ops, batch, 1);
      ReplayOps(hist, batch, lastSequence + 1);
      ApplyBatch(batch);
    }

    method ApplyBatch(batch: seq<WriteOp>)
      modifies this
      ensures Abs() == Written(old(Abs()), EntriesOf(batch, old(lastSequence) + 1)) && ops == old(ops) + batch
    {
      var table := InsertBatch(mem, batch, lastSequence + 1);
      hist := hist + EntriesOf(batch, lastSequence + 1);
      mem, lastSequence, ops := table, lastSequence + |batch|, ops + batch;
    }

    /** The memtable switch of DBImpl::MakeRoomForWrite; it also takes a number
        for the new log. */
    method SwitchMemTable()
      requires Valid() && imm.None?
      modifies this
      ensures Next(old(Abs()), Step.SwitchMemTable, Abs()) && Valid() && ops == old(ops)
    {
      ghost var before := Abs();
      nextFile := nextFile + 1;
      imm, mem := Some(mem), [];
      NextKeepsInv(before, Step.SwitchMemTable, Abs());
    }

    /** DBImpl::CompactMemTable: WriteLevel0Table, the level choice, and the edit. */
    method CompactMemTable(size: nat) returns (ghost level: nat)
      requires Valid() && imm.Some?
      modifies this
      ensures Valid() && ops == old(ops)
      ensures Next(old(Abs()), Flush(level, size), Abs())
      ensures old(imm).value != [] ==>
                var f := FileOf(old(nextFile), size, old(imm).value);
                |old(levels)| == NUM_LEVELS && IsOutputLevel(old(levels), f.smallest.user, f.largest.user, level)
    {
      hide FlushTo, FreeDownTo, GoesDown, Meets, Inv, BaseInv, Next, EntriesOf, LevelsOk, NewFile;
      ghost var before := Abs();
      InvHasBase(before);
      var number := nextFile;
      nextFile := nextFile + 1;
      var table := imm.value;
      level := 0;
      if table != [] {
        var f := FileOf(number, size, table);
        ShapeOf(before);
        var deepest := PickLevelForMemTableOutput(levels, f.smallest.user, f.largest.user);
        level := deepest;
        FlushFileIsNew(before, size);
        BaseLevels(before);
        levels := InstallFlush(levels, number, f, deepest);
      }
      imm := None;
      IsFlushStep(before, level, size, levels);
      NextKeepsInv(before, Flush(level, size), Abs());
    }

    /** DBImpl::BackgroundCompaction with nothing to flush: pick inputs (or take the
        manual range), then move one file down or run the loop.  `small` is the
        size part of IsTrivialMove.  Reads stay right if and only if the step is clean. */
    method BackgroundCompaction(manual: Option<Manual>, trigger: Trigger, small: bool,
                                stopBefore: nat -> bool, sizeAfter: nat -> nat)
      returns (ghost step: Option<Step>, ghost c: Option<Inputs>)
      requires Valid() && imm.None? && Requestable(levels, manual, trigger)
      modifies this
      ensures AsRequested(old(levels), manual, trigger, c) && (step.None? <==> c.None?)
      ensures step.None? ==> Abs() == old(Abs())
      ensures c.Some? ==> IsStepOf(old(Abs()).db, manual, small, stopBefore, sizeAfter, c.value, step.value)
      ensures step.Some? ==> Next(old(Abs()), step.value, Abs())
      ensures BaseInv(Abs()) && ops == old(ops)
      ensures step.Some? ==> (Valid() <==> Clean(old(Abs()), step.value))
    {
      hide AsRequested, OutputsOf, Inv, Clean, EntriesOf, Next, BaseInv, Chosen, InOrder;
      ghost var before := Abs();
      InvHasBase(before);
      ShapeOf(before);
      var chosen := ChooseInputs(levels, manual, trigger);
      c := chosen;
      if chosen.None? {
        return None, None;
      }
      var x := chosen.value;
      if manual.None? && |x.in0| == 1 && x.in1 == [] && small {
        assert x.in0 == [x.in0[0]];
        levels := MoveDown(before, levels, x.from, x.in0[0], x.lo, x.hi);
        step := Some(TrivialMove(x.from, x.in0[0]));
      } else {
        var snapshot := if snapshots == [] then lastSequence else snapshots[0];
        var outs;
        outs, levels, nextFile := RunCompaction(before, levels, nextFile, snapshot, x, stopBefore, sizeAfter);
        floor := if snapshot > floor then snapshot else floor;
        step := Some(Compact(x.from, x.in0, x.in1, x.lo, x.hi, outs));
      }
      StepKeeps(before, step.value, Abs());
    }

    method GetSnapshot() returns (s: nat)
      requires Valid()
      modifies this
      ensures Next(old(Abs()), Step.GetSnapshot, Abs()) && Valid() && s == lastSequence && ops == old(ops)
    {
      ghost var before := Abs();
      s := lastSequence;
      snapshots := snapshots + [s];
      NextKeepsInv(before, Step.GetSnapshot, Abs());
    }

    method ReleaseSnapshot(i: nat)
      requires Valid() && i < |snapshots|
      modifies this
      ensures Next(old(Abs()), Step.ReleaseSnapshot(i), Abs()) && Valid() && ops == old(ops)
    {
      ghost var before := Abs();
      snapshots := snapshots[..i] + snapshots[i + 1..];
      NextKeepsInv(before, Step.ReleaseSnapshot(i), Abs());
    }

    /** DBImpl::Get: memtable, immutable memtable, then the version; the answer is
        that of a plain map that saw the operations up to the snapshot. */
    method Get(u: UserKey, snapshot: Option<nat>) returns (a: Answer)
      requires Valid() && (snapshot.Some? ==> snapshot.value in snapshots)
      ensures var s := if snapshot.Some? then snapshot.value else lastSequence;
              s <= |ops| && a == Lookup(ApplyOps(map[], ops[..s]), u)
    {
      hide Inv, BaseInv, EntriesOf, DbGet;
      var s := if snapshot.Some? then snapshot.value else lastSequence;
      InvHasBase(Abs());
      AnswersOps(Abs(), ops, u, s);
      ShapeOf(Abs());
      var r := GetFromLayers(mem, imm, levels, u, s);
      SameLayers(Abs().db, u, s);
      a := AnswerOf(r);
    }
  }

  method GetFromLayers(mem: seq<Entry>, imm: Option<seq<Entry>>, levels: seq<seq<File>>, u: UserKey, s: nat)
    returns (r: Option<Entry>)
    requires LevelsShape(levels)
    ensures r == DbGet(Db(mem, imm, levels, 0, [], 0), u, s)
  {
    r := Hit(mem, u, s);
    if r.None? && imm.Some? {
      r := Hit(imm.value, u, s);
    }
    if r.None? {
      r := GetFromVersion(levels, u, s);
    }
  }

  /** WriteBatchInternal::InsertInto: one Add per operation, sequence counting up. */
  method InsertBatch(mem: seq<Entry>, ops: seq<WriteOp>, first: nat) returns (r: seq<Entry>)
    ensures r == InsertAll(mem, EntriesOf(ops, first))
  {
    r := mem;
    for i := 0 to |ops|
      invariant r == InsertAll(mem, EntriesOf(ops[..i], first))
    {
      ghost var es, e := EntriesOf(ops[..i], first), EntryOf(ops[i], first + i);
      assert ops[..i + 1][..i] == ops[..i];
      assert EntriesOf(ops[..i + 1], first) == es + [e];
      assert (es + [e])[..|es|] == es;
      r := Insert(r, EntryOf(ops[i], first + i));
    }
    assert ops[..|ops|] == ops;
  }

  lemma FlushFileIsNew(s: State, size: nat)
    requires BaseInv(s) && s.db.imm.Some? && s.db.imm.value != []
    ensures NewFile(s.db.levels, s.db.nextFile, FileOf(s.db.nextFile, size, s.db.imm.value))
  {
    var imm := s.db.imm.value;
    forall e | e in imm
      ensures e !in TableEntries(s.db.levels) && e.key.sequence <= MAX_SEQUENCE
    {
      assert e in Elems(imm) && e in Stored(s.db);
    }
    assert imm[0] in imm && imm[|imm| - 1] in imm;
    assert |imm| > 1 ==> Less(imm[0].key, imm[|imm| - 1].key);
  }

  lemma TrivialInputs(s: State, from: nat, f: File, lo: UserKey, hi: UserKey)
    requires BaseInv(s) && Chosen(s.db.levels, from, [f], [], lo, hi)
    ensures Chosen(s.db.levels, from, [f], [], f.smallest.user, f.largest.user)
    ensures OutsOk(s.db.levels, [f] + [], [f], s.db.nextFile)
    ensures NoSharedNumber(s.db.levels[from + 1], [f])
  {
    hide LevelsOk, FileOk, OutsOk, NoSharedNumber;
    assert f in [f] && At(s.db.levels, from, f);
    assert [f] + [] == [f];
    MovedIsOk(s.db.levels, s.db.nextFile, from, f);
  }

  /** A file that moves down is its own output. */
  lemma MovedIsOk(levels: seq<seq<File>>, nextFile: nat, from: nat, f: File)
    requires LevelsOk(levels, nextFile) && from + 1 < NUM_LEVELS && At(levels, from, f)
    ensures OutsOk(levels, [f], [f], nextFile) && NoSharedNumber(levels[from + 1], [f])
  {
    assert f in [f];
    assert forall o, e :: o in [f] && e in o.entries ==> f in [f] && e in f.entries;
    var next := from + 1;
    assert forall g :: g in levels[next] ==> At(levels, next, g);
  }

  lemma FreshNumbers(s: State, from: nat, outs: seq<File>, limit: nat)
    requires BaseInv(s) && from + 1 < NUM_LEVELS && NumbersFrom(outs, s.db.nextFile, limit)
    ensures NoSharedNumber(s.db.levels[from + 1], outs)
  {
    var next := from + 1;
    assert forall g :: g in s.db.levels[next] ==> At(s.db.levels, next, g);
  }

  function EntryLists(files: seq<File>): (r: seq<seq<Entry>>)
    ensures |r| == |files| && forall i :: 0 <= i < |r| ==> r[i] == files[i].entries
  {
    if files == [] then [] else [files[0].entries] + EntryLists(files[1..])
  }

  lemma InputsAreDistinct(s: State, from: nat, in0: seq<File>, in1: seq<File>, lo: UserKey, hi: UserKey, i: nat, j: nat)
    requires BaseInv(s) && Chosen(s.db.levels, from, in0, in1, lo, hi) && InOrder(in0) && InOrder(in1)
    requires i < j < |in0 + in1|
    ensures DistinctKeys((in0 + in1)[i].entries, (in0 + in1)[j].entries)
    ensures Sorted((in0 + in1)[j].entries)
  {
    var all := in0 + in1;
    var f, g := all[i], all[j];
    var l := if i < |in0| then from else from + 1;
    var m := if j < |in0| then from else from + 1;
    assert if i < |in0| then f == in0[i] && f in in0 else f == in1[i - |in0|] && f in in1;
    assert if j < |in0| then g == in0[j] && g in in0 else g == in1[j - |in0|] && g in in1;
    assert At(s.db.levels, l, f) && At(s.db.levels, m, g);
    assert l == m ==> BySmallest(f, g);
    forall x, y | x in f.entries && y in g.entries
      ensures x.key != y.key
    {
      assert x in TableEntries(s.db.levels) && y in TableEntries(s.db.levels);
      assert FromHist(s.hist, x) && FromHist(s.hist, y);
    }
  }

  /** MakeInputIterator run to its end: the sorted union of the input tables. */
  method MergeInputs(ghost s: State, from: nat, in0: seq<File>, in1: seq<File>, ghost lo: UserKey, ghost hi: UserKey)
    returns (merged: seq<Entry>)
    requires BaseInv(s) && Chosen(s.db.levels, from, in0, in1, lo, hi) && InOrder(in0) && InOrder(in1)
    ensures IsMergeOf(merged, in0 + in1)
    ensures forall e :: e in merged ==> e.key.sequence <= MAX_SEQUENCE
  {
    hide BaseInv, Chosen, Merge2, FileOk;
    merged := [];
    var todo := in0 + in1;
    for i := 0 to |todo|
      invariant Sorted(merged) && ComesFrom(merged, todo[..i])
    {
      var f := todo[i];
      NewEntries(s, from, in0, in1, lo, hi, merged, i);
      Merge2Sorted(merged, f.entries);
      MergedMembers(merged, f.entries);
      OneMoreFile(merged, todo, i, Merge2(merged, f.entries));
      merged := Merge2(merged, f.entries);
    }
    assert todo[..|todo|] == todo;
    InputSequences(s, from, in0, in1, lo, hi, merged);
  }

  /** The entries of the files, and no others. */
  ghost predicate ComesFrom(merged: seq<Entry>, files: seq<File>) {
    forall e :: e in merged <==> exists f :: f in files && e in f.entries
  }

  lemma OneMoreFile(merged: seq<Entry>, todo: seq<File>, i: nat, more: seq<Entry>)
    requires i < |todo| && ComesFrom(merged, todo[..i])
    requires forall e :: e in more <==> e in merged || e in todo[i].entries
    ensures ComesFrom(more, todo[..i + 1])
  {
    assert todo[..i + 1] == todo[..i] + [todo[i]];
  }

  /** The next input shares no key with those before. */
  lemma NewEntries(s: State, from: nat, in0: seq<File>, in1: seq<File>, lo: UserKey, hi: UserKey,
                   merged: seq<Entry>, i: nat)
    requires BaseInv(s) && Chosen(s.db.levels, from, in0, in1, lo, hi) && InOrder(in0) && InOrder(in1)
    requires i < |in0 + in1| && ComesFrom(merged, (in0 + in1)[..i])
    ensures Sorted((in0 + in1)[i].entries)
    ensures forall x, y :: x in merged && y in (in0 + in1)[i].entries ==> x.key != y.key
  {
    var todo := in0 + in1;
    var f := todo[i];
    assert FileOk(f) by {
      assert f in in0 || f in in1;
      assert At(s.db.levels, from, f) || At(s.db.levels, from + 1, f);
    }
    hide BaseInv, Chosen, FileOk;
    forall x, y | x in merged && y in f.entries
      ensures x.key != y.key
    {
      var g :| g in todo[..i] && x in g.entries;
      var j :| 0 <= j < i && todo[j] == g;
      InputsAreDistinct(s, from, in0, in1, lo, hi, j, i);
    }
  }

  lemma InputSequences(s: State, from: nat, in0: seq<File>, in1: seq<File>, lo: UserKey, hi: UserKey,
                       merged: seq<Entry>)
    requires BaseInv(s) && Chosen(s.db.levels, from, in0, in1, lo, hi) && ComesFrom(merged, in0 + in1)
    ensures forall e :: e in merged ==> e.key.sequence <= MAX_SEQUENCE
  {
    forall e | e in merged
      ensures e.key.sequence <= MAX_SEQUENCE
    {
      var f :| f in in0 + in1 && e in f.entries;
      assert f in s.db.levels[from] || f in s.db.levels[from + 1];
      assert e in Stored(s.db) && FromHist(s.hist, e);
    }
  }

  lemma ShapeOf(s: State)
    requires BaseInv(s)
    ensures LevelsShape(s.db.levels)
  {
    forall l | 0 <= l < NUM_LEVELS
      ensures AllMeta(s.db.levels[l])
    {
      assert forall f :: f in s.db.levels[l] ==> At(s.db.levels, l, f);
    }
  }

  /** The level-0 part of Version::Get: covering files, newest first. */
  method GetFromLevelZero(files: seq<File>, u: UserKey, s: nat) returns (r: Option<Entry>)
    ensures r == FirstHit(SortNewest(Covering(files, u)), u, s)
  {
    var tmp: seq<File> := [];
    for i := 0 to |files|
      invariant tmp == Covering(files[..i], u)
    {
      assert files[..i + 1][..i] == files[..i];
      if files[i].smallest.user <= u <= files[i].largest.user {
        tmp := tmp + [files[i]];
      }
    }
    assert files[..|files|] == files;
    tmp := SortNewest(tmp);
    for i := 0 to |tmp|
      invariant FirstHit(tmp[i..], u, s) == FirstHit(tmp, u, s)
    {
      assert tmp[i..][1..] == tmp[i + 1..];
      var h := Hit(tmp[i].entries, u, s);
      if h.Some? {
        return h;
      }
    }
    assert tmp[|tmp|..] == [];
    r := None;
  }

  /** Version::Get: level 0, then one file per deeper level. */
  method GetFromVersion(levels: seq<seq<File>>, u: UserKey, s: nat) returns (r: Option<Entry>)
    requires LevelsShape(levels)
    ensures r == VersionGet(levels, u, s)
  {
    r := GetFromLevelZero(levels[0], u, s);
    if r.Some? {
      return;
    }
    for level := 1 to NUM_LEVELS
      invariant DeepGet(levels, level, u, s) == DeepGet(levels, 1, u, s)
    {
      if levels[level] != [] {
        var index := FindFile(levels[level], SeekKey(u, s));
        if index < |levels[level]| && levels[level][index].smallest.user <= u {
          var h := Hit(levels[level][index].entries, u, s);
          if h.Some? {
            return h;
          }
        }
      }
    }
    r := None;
  }
}
