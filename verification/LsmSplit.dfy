/** Why clean steps are needed.  With a live snapshot a compaction may cut one user key
    between two outputs.  If the newer half alone then goes down, Get returns the older
    value; if the newer half is a deletion that is compacted alone and dropped, the
    deleted value returns.

    The user key 1 stands for a string of two megabytes, so that a table with one entry
    of it reaches the target size.  All compactions are those of one call of
    DBImpl::CompactRange over all keys, which works at levels 0 and 1 because of the file
    at level 2; another thread releases the snapshot in between. */
module LsmSplit {
  import opened Format
  import opened Version
  import opened Lsm
  import opened LsmLevels
  import opened LsmReads
  import opened LsmDrops
  import opened LsmRuns
  import opened Compaction

  const SEVEN := Entry(InternalKey(7, 1, Value), "x")
  const TWO := Entry(InternalKey(2, 2, Value), "y")
  const SEVEN_AGAIN := Entry(InternalKey(7, 3, Value), "y")
  const OLD := Entry(InternalKey(1, 4, Value), "old")
  const THREE := Entry(InternalKey(3, 6, Value), "z")

  /** The second write of the key: a value or a deletion. */
  function New(kind: ValueType): Entry {
    Entry(InternalKey(1, 5, kind), if kind.Value? then "new" else "")
  }

  const DEEP := File(3, 100, SEVEN.key, SEVEN.key, [SEVEN])
  const MIDDLE := File(5, 200, TWO.key, SEVEN_AGAIN.key, [TWO, SEVEN_AGAIN])

  function Both(kind: ValueType): File {
    File(7, 2 * TARGET_FILE_SIZE + 100, New(kind).key, THREE.key, [New(kind), OLD, THREE])
  }

  function Upper(kind: ValueType): File {
    File(8, TARGET_FILE_SIZE, New(kind).key, New(kind).key, [New(kind)])
  }

  const LOWER := File(9, TARGET_FILE_SIZE, OLD.key, OLD.key, [OLD])
  const REST := File(10, 300, TWO.key, SEVEN_AGAIN.key, [TWO, THREE, SEVEN_AGAIN])

  function Levels(l0: seq<File>, l1: seq<File>, l2: seq<File>): seq<seq<File>> {
    [l0, l1, l2, [], [], [], []]
  }

  // ----- a file at level 2 and one at level 1

  const D1 := State(Db([SEVEN], None, Levels([], [], []), 1, [], 2), [SEVEN], 0)
  const D2 := State(Db([], Some([SEVEN]), Levels([], [], []), 1, [], 3), [SEVEN], 0)
  const D3 := State(Db([], None, Levels([], [], [DEEP]), 1, [], 4), [SEVEN], 0)

  const HIST := [SEVEN, TWO, SEVEN_AGAIN]
  const D4 := State(Db([TWO, SEVEN_AGAIN], None, Levels([], [], [DEEP]), 3, [], 4), HIST, 0)
  const D5 := State(Db([], Some([TWO, SEVEN_AGAIN]), Levels([], [], [DEEP]), 3, [], 5), HIST, 0)
  const D6 := State(Db([], None, Levels([], [MIDDLE], [DEEP]), 3, [], 6), HIST, 0)

  lemma FirstFlush()
    ensures Next(INIT, Write([SEVEN]), D1) && Next(D1, SwitchMemTable, D2) && Next(D2, Flush(2, 100), D3)
  {
    assert [SEVEN][..0] == [] && InsertAll([], [SEVEN]) == Insert([], SEVEN) == [SEVEN];
    assert INIT.hist + [SEVEN] == [SEVEN];
    assert FileOf(3, 100, [SEVEN]) == DEEP;
    assert Updated([], [], [DEEP], [DEEP]);
  }

  lemma SecondWrite()
    ensures Next(D3, Write([TWO, SEVEN_AGAIN]), D4) && Next(D4, SwitchMemTable, D5)
  {
    var es := [TWO, SEVEN_AGAIN];
    assert es[..1] == [TWO] && [TWO][..0] == [] && InsertAll([], [TWO]) == Insert([], TWO) == [TWO];
    assert InsertAll([], es) == Insert([TWO], SEVEN_AGAIN) == es;
    assert [SEVEN] + es == HIST;
  }

  lemma SecondFlush()
    ensures Next(D5, Flush(1, 200), D6)
  {
    assert FileOf(5, 200, [TWO, SEVEN_AGAIN]) == MIDDLE;
    assert Updated([], [], [MIDDLE], [MIDDLE]);
  }

  // ----- the key is written twice, flushed and cut in two

  const S1 := State(Db([OLD], None, Levels([], [MIDDLE], [DEEP]), 4, [], 6), HIST + [OLD], 0)
  const S2 := State(Db([OLD], None, Levels([], [MIDDLE], [DEEP]), 4, [4], 6), HIST + [OLD], 0)

  function Hist(k: ValueType): seq<Entry> {
    [SEVEN, TWO, SEVEN_AGAIN, OLD, New(k), THREE]
  }

  function S3(k: ValueType): State {
    State(Db([New(k), OLD, THREE], None, Levels([], [MIDDLE], [DEEP]), 6, [4], 6), Hist(k), 0)
  }

  function S4(k: ValueType): State {
    State(Db([], Some([New(k), OLD, THREE]), Levels([], [MIDDLE], [DEEP]), 6, [4], 7), Hist(k), 0)
  }

  function S5(k: ValueType): State {
    State(Db([], None, Levels([Both(k)], [MIDDLE], [DEEP]), 6, [4], 8), Hist(k), 0)
  }

  function S6(k: ValueType): State {
    State(Db([], None, Levels([], [Upper(k), LOWER, REST], [DEEP]), 6, [4], 11), Hist(k), 4)
  }

  function S7(k: ValueType): State {
    State(Db([], None, Levels([], [Upper(k), LOWER, REST], [DEEP]), 6, [], 11), Hist(k), 4)
  }

  function FirstStates(k: ValueType): seq<State> {
    [INIT, D1, D2, D3, D4, D5, D6, S1, S2, S3(k), S4(k), S5(k), S6(k), S7(k)]
  }

  function FirstSteps(k: ValueType): seq<Step> {
    [
      Write([SEVEN]),
      SwitchMemTable,
      Flush(2, 100),
      Write([TWO, SEVEN_AGAIN]),
      SwitchMemTable,
      Flush(1, 200),
      Write([OLD]),
      GetSnapshot,
      Write([New(k), THREE]),
      SwitchMemTable,
      Flush(0, 2 * TARGET_FILE_SIZE + 100),
      Compact(0, [Both(k)], [MIDDLE], 1, 3, [Upper(k), LOWER, REST]),
      ReleaseSnapshot(0)
    ]
  }

  lemma OldWrite()
    ensures Next(D6, Write([OLD]), S1) && Next(S1, GetSnapshot, S2)
  {
    assert [OLD][..0] == [] && InsertAll([], [OLD]) == Insert([], OLD) == [OLD];
    assert S1.db.snapshots + [4] == [4];
  }

  lemma NewWrite(k: ValueType)
    ensures Next(S2, Write([New(k), THREE]), S3(k)) && Next(S3(k), SwitchMemTable, S4(k))
  {
    var es := [New(k), THREE];
    assert es[..1] == [New(k)] && [New(k)][..0] == [];
    assert InsertAll([OLD], [New(k)]) == Insert([OLD], New(k)) == [New(k), OLD];
    assert [New(k), OLD][1..] == [OLD] && Insert([OLD], THREE) == [OLD] + Insert([], THREE) == [OLD, THREE];
    assert InsertAll([OLD], es) == Insert([New(k), OLD], THREE) == [New(k), OLD, THREE];
    assert HIST + [OLD] + es == Hist(k);
  }

  lemma ThirdFlush(k: ValueType)
    ensures Next(S4(k), Flush(0, 2 * TARGET_FILE_SIZE + 100), S5(k))
  {
    assert FileOf(7, 2 * TARGET_FILE_SIZE + 100, [New(k), OLD, THREE]) == Both(k);
    assert Updated([], [], [Both(k)], [Both(k)]);
  }

  function Merged(k: ValueType): seq<Entry> {
    [New(k), OLD, TWO, THREE, SEVEN_AGAIN]
  }

  /** With snapshot 4 live both entries of the key are kept; a cut falls between them. */
  lemma SplittingCompaction(k: ValueType)
    ensures Next(S5(k), Compact(0, [Both(k)], [MIDDLE], 1, 3, [Upper(k), LOWER, REST]), S6(k))
  {
    hide CompactionResult;
    KeptAll(k);
    assert IsCompaction(S5(k).db, 0, [Both(k)], [MIDDLE], [Upper(k), LOWER, REST]);
    var outs := [Upper(k), LOWER, REST];
    assert Updated([Both(k)], [Both(k)], [], []);
    OutputsEnter(k, outs);
    assert Chosen(S5(k).db.levels, 0, [Both(k)], [MIDDLE], 1, 3);
  }

  lemma OutputsEnter(k: ValueType, outs: seq<File>)
    requires outs == [Upper(k), LOWER, REST]
    ensures Updated([MIDDLE], [MIDDLE], outs, outs)
  {
  }

  lemma KeptAll(k: ValueType)
    ensures CompactionResult(S5(k).db, 0, [Both(k)], [MIDDLE], Merged(k), [Upper(k), LOWER, REST])
  {
    hide Dropped;
    MergeOf(k);
    NoneDropped(k);
    KeptWhole(k);
    FilesHold(k);
    assert FileOk(Upper(k)) && FileOk(LOWER) && FileOk(REST);
  }

  lemma MergeOf(k: ValueType)
    ensures IsMergeOf(Merged(k), [Both(k)] + [MIDDLE])
  {
    var ins := [Both(k)] + [MIDDLE];
    assert Both(k) in ins && MIDDLE in ins;
  }

  lemma KeptWhole(k: ValueType)
    ensures Kept(Merged(k), 5, 4, S5(k).db.levels, 0) == Merged(k)
  {
    hide Dropped;
    var levels, merged := S5(k).db.levels, Merged(k);
    NoneDropped(k);
    assert Kept(merged, 1, 4, levels, 0) == [New(k)];
    assert Kept(merged, 2, 4, levels, 0) == [New(k), OLD];
    assert Kept(merged, 3, 4, levels, 0) == [New(k), OLD, TWO];
    assert Kept(merged, 4, 4, levels, 0) == [New(k), OLD, TWO, THREE];
  }

  lemma FilesHold(k: ValueType)
    ensures Contents([Upper(k), LOWER, REST]) == Merged(k)
  {
    var outs := [Upper(k), LOWER, REST];
    assert outs[..2] == [Upper(k), LOWER] && outs[..2][..1] == [Upper(k)] && [Upper(k)][..0] == [];
    assert Contents([]) == [] && Contents([Upper(k)]) == [New(k)] && Contents([Upper(k), LOWER]) == [New(k), OLD];
  }

  lemma NoneDropped(k: ValueType)
    ensures forall i :: 0 <= i < 5 ==> !Dropped(Merged(k), i, 4, S5(k).db.levels, 0)
  {
  }

  lemma SnapshotReleased(k: ValueType)
    ensures Next(S6(k), ReleaseSnapshot(0), S7(k))
  {
    assert [4][..0] + [4][1..] == [];
  }

  lemma FirstRun(k: ValueType)
    ensures IsRun(FirstStates(k), FirstSteps(k))
  {
    hide Next, New, Levels, S3, S4, S5, S6, S7, Both, Upper;
    FirstFlush();
    SecondWrite();
    SecondFlush();
    OldWrite();
    NewWrite(k);
    ThirdFlush(k);
    SplittingCompaction(k);
    SnapshotReleased(k);
    SevenLevels(k);
    var states, steps := FirstStates(k), FirstSteps(k);
    forall i | 0 <= i < |steps|
      ensures |states[i].db.levels| == NUM_LEVELS && Next(states[i], steps[i], states[i + 1])
    {
    }
  }

  lemma SevenLevels(k: ValueType)
    ensures forall l0, l1, l2 :: |Levels(l0, l1, l2)| == NUM_LEVELS
    ensures |S3(k).db.levels| == |S4(k).db.levels| == |S5(k).db.levels| == |S6(k).db.levels| == NUM_LEVELS
  {
  }

  lemma OneStepMore(states: seq<State>, steps: seq<Step>, step: Step, s: State)
    requires IsRun(states, steps) && |states[|steps|].db.levels| == NUM_LEVELS && Next(states[|steps|], step, s)
    ensures IsRun(states + [s], steps + [step])
  {
    hide Next;
  }

  // ----- these are the choices of the code

  /** A table with one entry of the long key has two megabytes; the others are small. */
  const SIZES: nat -> nat := i => if i < 2 then TARGET_FILE_SIZE else 100 * (i - 1)
  const NEVER: nat -> bool := i => false

  /** The first table meets nothing. */
  lemma FirstLevel()
    ensures IsOutputLevel(D2.db.levels, 7, 7, 2)
  {
    var levels := D2.db.levels;
    assert Filter([], Some(7), Some(7)) == [] && TotalFileSize([]) == 0;
    assert !Meets([], 7, 7);
    assert GoesDown(levels, 0, 7, 7) && GoesDown(levels, 1, 7, 7);
  }

  /** The second one meets the first at level 2. */
  lemma SecondLevel()
    ensures IsOutputLevel(D5.db.levels, 2, 7, 1)
  {
    var levels := D5.db.levels;
    assert [DEEP][..0] == [] && Filter([], Some(2), Some(7)) == [] && Filter([DEEP], Some(2), Some(7)) == [DEEP];
    assert TotalFileSize([]) == 0 && [DEEP][1..] == [] && TotalFileSize([DEEP]) == 100;
    assert !Meets([], 2, 7) && GoesDown(levels, 0, 2, 7);
    assert DEEP in levels[2] && Meets(levels[2], 2, 7) && !GoesDown(levels, 1, 2, 7);
  }

  /** The third one meets the second at level 1. */
  lemma ThirdLevel(k: ValueType)
    ensures IsOutputLevel(S4(k).db.levels, 1, 3, 0)
  {
    var levels := S4(k).db.levels;
    assert !Meets([], 1, 3);
    assert MIDDLE in levels[1] && Meets(levels[1], 1, 3) && !GoesDown(levels, 0, 1, 3);
  }

  /** The loop closes a table as soon as it holds one entry of the long key. */
  lemma CutRule(k: ValueType)
    ensures Finished(Outputs(Merged(k), 5, 4, S5(k).db.levels, 0, NEVER, SIZES, 8), true).outs
            == [Upper(k), LOWER, REST]
  {
    hide Dropped;
    var merged, levels := Merged(k), S5(k).db.levels;
    NoneDropped(k);
    assert Outputs(merged, 0, 4, levels, 0, NEVER, SIZES, 8) == Building([], [], 0, 0, 8);
    assert Outputs(merged, 1, 4, levels, 0, NEVER, SIZES, 8).outs == [Upper(k)];
    assert Outputs(merged, 2, 4, levels, 0, NEVER, SIZES, 8).outs == [Upper(k), LOWER];
    assert Outputs(merged, 3, 4, levels, 0, NEVER, SIZES, 8).builder == [TWO];
    assert Outputs(merged, 4, 4, levels, 0, NEVER, SIZES, 8).builder == [TWO, THREE];
    var all := Outputs(merged, 5, 4, levels, 0, NEVER, SIZES, 8);
    assert all == Building([Upper(k), LOWER], [TWO, THREE, SEVEN_AGAIN], 10, 300, 11);
    assert FileOf(10, 300, all.builder) == REST;
  }

  /** A manual compaction of all keys takes the first file of level 1 alone, whose size is
      the limit already. */
  lemma ManualRule(k: ValueType)
    ensures CutAtSize(Filter(S7(k).db.levels[1], None, None), 0) == [Upper(k)]
  {
    var files := [Upper(k), LOWER, REST];
    FilterAll(files);
    assert files[..1] == [Upper(k)] && [Upper(k)][1..] == [];
    assert TotalFileSize([]) == 0 && TotalFileSize([Upper(k)]) >= TARGET_FILE_SIZE;
  }

  lemma {:induction false} FilterAll(files: seq<File>)
    ensures Filter(files, None, None) == files
  {
    if files != [] {
      FilterAll(files[..|files| - 1]);
      assert files == files[..|files| - 1] + [files[|files| - 1]];
    }
  }

  // ----- the newer half goes down

  const DOWN := File(11, TARGET_FILE_SIZE, New(Value).key, New(Value).key, [New(Value)])
  const STALE := State(Db([], None, Levels([], [LOWER, REST], [DOWN, DEEP]), 6, [], 12), Hist(Value), 6)

  lemma NewIsKept()
    ensures CompactionResult(S7(Value).db, 1, [Upper(Value)], [], [New(Value)], [DOWN])
  {
    var db, upper, merged := S7(Value).db, Upper(Value), [New(Value)];
    assert IsMergeOf(merged, [upper] + []) by {
      assert upper in [upper] + [];
    }
    assert !Dropped(merged, 0, 6, db.levels, 1);
    assert Kept(merged, 0, 6, db.levels, 1) == [];
    assert Kept(merged, 1, 6, db.levels, 1) == merged;
    assert [DOWN][..0] == [] && Contents([]) == [] && Contents([DOWN]) == merged;
  }

  /** The next manual compaction takes the first file of level 1 alone. */
  lemma HalfGoesDown()
    ensures Next(S7(Value), Compact(1, [Upper(Value)], [], 1, 1, [DOWN]), STALE)
  {
    hide CompactionResult, Updated;
    NewIsKept();
    UpperLeaves(Value);
    DownEnters();
    UpperChosen(Value);
  }

  lemma DownEnters()
    ensures Updated([DEEP], [], [DOWN], [DOWN, DEEP]) && Updated([DEEP], [], [], [DEEP])
  {
  }

  lemma UpperChosen(k: ValueType)
    ensures Chosen(S7(k).db.levels, 1, [Upper(k)], [], 1, 1)
  {
    var levels := S7(k).db.levels;
    assert Upper(k) in levels[1] && !Overlaps(DEEP, Some(1), Some(1));
  }

  lemma UpperLeaves(k: ValueType)
    ensures Updated([Upper(k), LOWER, REST], [Upper(k)], [], [LOWER, REST])
  {
    var files := [Upper(k), LOWER, REST];
    assert Upper(k) in files && LOWER in files && REST in files;
  }

  lemma DownRule()
    ensures Finished(Outputs([New(Value)], 1, 6, S7(Value).db.levels, 1, NEVER, SIZES, 11), true).outs == [DOWN]
  {
    var merged, levels := [New(Value)], S7(Value).db.levels;
    assert !Dropped(merged, 0, 6, levels, 1);
    assert Outputs(merged, 0, 6, levels, 1, NEVER, SIZES, 11) == Building([], [], 0, 0, 11);
  }

  /** Level 1 answers with the older value. */
  lemma LowerIsRead(levels: seq<seq<File>>)
    requires |levels| == NUM_LEVELS && levels[0] == [] && levels[1] == [LOWER, REST]
    ensures VersionGet(levels, 1, 6) == Some(OLD)
  {
    assert Covering([], 1) == [] && SortNewest([]) == [] && FirstHit([], 1, 6) == None;
    assert FirstNotBefore(levels[1], SeekKey(1, 6)) == 0 && SeekIndex([OLD], SeekKey(1, 6)) == 0;
    assert LevelGet(levels[1], 1, 6) == Some(OLD);
    assert DeepGet(levels, 1, 1, 6) == Some(OLD);
  }

  lemma PlainMap(k: ValueType)
    ensures Lookup(Replay(Hist(k)[..6]), 1) == if k.Value? then Found("new") else NotFound
  {
    var h := Hist(k);
    assert h[..6] == h && h[..5] == [SEVEN, TWO, SEVEN_AGAIN, OLD, New(k)];
    assert Replay(h) == Replay(h[..5])[3 := "z"];
    assert h[..5][..4] == h[..4];
    assert Replay(h[..5]) == if k.Value? then Replay(h[..4])[1 := "new"] else Replay(h[..4]) - {1};
  }

  lemma NotVanishing()
    ensures !Vanishes(S7(Value).db, 1, FileEntries([Upper(Value)] + []), 1)
  {
    forall p | p in FileEntries([Upper(Value)] + [])
      ensures p == New(Value)
    {
    }
  }

  lemma LeftOlder(db: Db, from: nat, upper: File, lower: File, e: Entry, x: Entry)
    requires |db.levels| == NUM_LEVELS && from < NUM_LEVELS && lower in db.levels[from] && lower != upper
    requires e in upper.entries && x in lower.entries
    requires x.key.user == e.key.user && x.key.sequence < e.key.sequence
    requires !Vanishes(db, from, FileEntries([upper] + []), x.key.user)
    ensures !OrderSafe(db, from, [upper], [])
  {
    hide Vanishes, FileEntries;
    assert upper in [upper] && lower !in [upper];
  }

  lemma OlderStays()
    ensures !OrderSafe(S7(Value).db, 1, [Upper(Value)], [])
  {
    hide Vanishes, FileEntries, OrderSafe;
    NotVanishing();
    LeftOlder(S7(Value).db, 1, Upper(Value), LOWER, New(Value), OLD);
  }

  /** A run after which Get misses the newest write; its last step is not clean.  Levels,
      outputs and inputs are those that the code chooses for these sizes. */
  lemma SplitKeyReadsStale()
    ensures IsRun(FirstStates(Value) + [STALE], FirstSteps(Value) + [Compact(1, [Upper(Value)], [], 1, 1, [DOWN])])
    ensures STALE.db.lastSequence == 6 && AnswerOf(DbGet(STALE.db, 1, 6)) == Found("old")
    ensures Lookup(Replay(STALE.hist[..6]), 1) == Found("new")
    ensures !Clean(S7(Value), Compact(1, [Upper(Value)], [], 1, 1, [DOWN]))
    ensures IsOutputLevel(D2.db.levels, 7, 7, 2) && IsOutputLevel(D5.db.levels, 2, 7, 1)
    ensures IsOutputLevel(S4(Value).db.levels, 1, 3, 0)
    ensures Finished(Outputs(Merged(Value), 5, 4, S5(Value).db.levels, 0, NEVER, SIZES, 8), true).outs
            == [Upper(Value), LOWER, REST]
    ensures CutAtSize(Filter(S7(Value).db.levels[1], None, None), 0) == [Upper(Value)]
    ensures Finished(Outputs([New(Value)], 1, 6, S7(Value).db.levels, 1, NEVER, SIZES, 11), true).outs == [DOWN]
  {
    hide IsRun, OrderSafe, DeletionsSafe, Next, VersionGet, Replay, Outputs, CutAtSize, IsOutputLevel, Filter;
    FirstRun(Value);
    HalfGoesDown();
    OneStepMore(FirstStates(Value), FirstSteps(Value), Compact(1, [Upper(Value)], [], 1, 1, [DOWN]), STALE);
    LowerIsRead(STALE.db.levels);
    assert SeekIndex([], SeekKey(1, 6)) == 0;
    PlainMap(Value);
    OlderStays();
    FirstLevel();
    SecondLevel();
    ThirdLevel(Value);
    ManualRule(Value);
    CutRule(Value);
    DownRule();
  }

  // ----- the newer half is dropped

  const DROPPED := State(Db([], None, Levels([], [LOWER, REST], [DEEP]), 6, [], 11), Hist(Deletion), 6)

  /** The same manual compaction drops the deletion, because no deeper level can hold the
      key. */
  lemma DeletionCompacts()
    ensures Next(S7(Deletion), Compact(1, [Upper(Deletion)], [], 1, 1, []), DROPPED)
  {
    hide CompactionResult, Updated;
    NothingIsKept();
    UpperLeaves(Deletion);
    DownEnters();
    UpperChosen(Deletion);
  }

  lemma KeyAtBase(k: ValueType)
    ensures IsBase(S7(k).db.levels, 1, 1)
  {
  }

  lemma NothingIsKept()
    ensures CompactionResult(S7(Deletion).db, 1, [Upper(Deletion)], [], [New(Deletion)], [])
  {
    hide IsBase;
    var db, upper, merged := S7(Deletion).db, Upper(Deletion), [New(Deletion)];
    assert IsMergeOf(merged, [upper] + []) by {
      assert upper in [upper] + [];
    }
    KeyAtBase(Deletion);
    assert Dropped(merged, 0, 6, db.levels, 1);
    assert Kept(merged, 0, 6, db.levels, 1) == [];
    assert Kept(merged, 1, 6, db.levels, 1) == [] == Contents([]);
  }

  lemma FilesOfS7(l: nat, f: File)
    requires At(S7(Deletion).db.levels, l, f)
    ensures f == Upper(Deletion) || f == LOWER || f == REST || f == DEEP
  {
  }

  lemma NewestStored()
    ensures IsNewest(Stored(S7(Deletion).db), 1, 6, New(Deletion))
    ensures New(Deletion) in FileEntries([Upper(Deletion)] + [])
  {
    var levels, upper := S7(Deletion).db.levels, Upper(Deletion);
    assert upper in [upper] + [] && upper in levels[1] && New(Deletion) in upper.entries;
    assert New(Deletion) in TableEntries(levels);
    forall x | x in TableEntries(levels) && x.key.user == 1
      ensures x.key.sequence <= 5
    {
      var l: nat, f: File :| 0 <= l < |levels| && f in levels[l] && x in f.entries;
      FilesOfS7(l, f);
    }
  }

  lemma NewestLeft()
    ensures IsNewest(Others(S7(Deletion).db.levels, 1, [Upper(Deletion)], []), 1, 5, OLD)
  {
    var levels, upper := S7(Deletion).db.levels, Upper(Deletion);
    assert LOWER in levels[1] && LOWER !in [upper] && OLD in LOWER.entries;
    forall x | x in Others(levels, 1, [upper], []) && x.key.user == 1
      ensures x.key.sequence <= 4
    {
      var l: nat, f: File :| 0 <= l < |levels| && f in levels[l] && x in f.entries && !(l == 1 && f in [upper])
          && !(l == 2 && f in []);
      FilesOfS7(l, f);
    }
  }

  /** The condition on deletions does not hold. */
  lemma DropNotSafe()
    ensures !DeletionsSafe(S7(Deletion).db, 1, [Upper(Deletion)], [])
  {
    hide FileEntries, Others, Stored, IsBase;
    NewestStored();
    NewestLeft();
    KeyAtBase(Deletion);
    assert !NoValueNewest(Others(S7(Deletion).db.levels, 1, [Upper(Deletion)], []), 1, 5);
  }

  /** A run after which Get returns a deleted value; its last step is not clean.  Levels,
      outputs and inputs are those that the code chooses for these sizes. */
  lemma DeletedKeyReturns()
    ensures IsRun(FirstStates(Deletion) + [DROPPED],
                  FirstSteps(Deletion) + [Compact(1, [Upper(Deletion)], [], 1, 1, [])])
    ensures DROPPED.db.lastSequence == 6 && AnswerOf(DbGet(DROPPED.db, 1, 6)) == Found("old")
    ensures Lookup(Replay(DROPPED.hist[..6]), 1) == NotFound
    ensures !Clean(S7(Deletion), Compact(1, [Upper(Deletion)], [], 1, 1, []))
    ensures IsOutputLevel(D2.db.levels, 7, 7, 2) && IsOutputLevel(D5.db.levels, 2, 7, 1)
    ensures IsOutputLevel(S4(Deletion).db.levels, 1, 3, 0)
    ensures Finished(Outputs(Merged(Deletion), 5, 4, S5(Deletion).db.levels, 0, NEVER, SIZES, 8), true).outs
            == [Upper(Deletion), LOWER, REST]
    ensures CutAtSize(Filter(S7(Deletion).db.levels[1], None, None), 0) == [Upper(Deletion)]
  {
    hide IsRun, OrderSafe, DeletionsSafe, Next, VersionGet, Replay, Outputs, CutAtSize, IsOutputLevel, Filter;
    FirstRun(Deletion);
    DeletionCompacts();
    OneStepMore(FirstStates(Deletion), FirstSteps(Deletion), Compact(1, [Upper(Deletion)], [], 1, 1, []), DROPPED);
    LowerIsRead(DROPPED.db.levels);
    assert SeekIndex([], SeekKey(1, 6)) == 0;
    PlainMap(Deletion);
    DropNotSafe();
    FirstLevel();
    SecondLevel();
    ThirdLevel(Deletion);
    ManualRule(Deletion);
    CutRule(Deletion);
  }
}
