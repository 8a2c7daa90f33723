/** Right reads where someone can read: at the last sequence and at the live snapshots,
    or at every sequence from the floor on.  For both the condition on the steps of a
    run is exact. */
module LsmPromised {
  import opened Format
  import opened Version
  import opened Lsm
  import opened LsmLevels
  import opened LsmReads
  import opened LsmDrops
  import opened LsmExact
  import opened LsmRuns

  /** Which sequences readers may use: the last one and the live snapshots, or every one
      from the floor on. */
  datatype Reach = Live | FromFloor

  ghost predicate Promised(s: State, r: Reach, at: nat) {
    match r
    case Live => at == s.db.lastSequence || at in s.db.snapshots
    case FromFloor => s.floor <= at <= s.db.lastSequence
  }

  ghost predicate GetExactAt(db: Db, at: nat)
    requires |db.levels| == NUM_LEVELS
  {
    forall u :: Reads(Stored(db), u, at, DbGet(db, u, at))
  }

  /** The newest stored version of every key answers like the plain map. */
  ghost predicate AnswersAt(hist: seq<Entry>, stored: set<Entry>, at: nat)
    requires at <= |hist|
  {
    forall u, r {:trigger Reads(stored, u, at, r)} ::
      Reads(stored, u, at, r) ==> AnswerOf(r) == Lookup(Replay(hist[..at]), u)
  }

  ghost predicate PromisedRight(s: State, r: Reach)
    requires |s.db.levels| == NUM_LEVELS
  {
    forall at: nat :: Promised(s, r, at) ==>
      at <= |s.hist| && GetExactAt(s.db, at) && AnswersAt(s.hist, Stored(s.db), at)
  }

  // ----- Get at one sequence

  /** The older `e` is searched before the newer `x`. */
  ghost predicate Inverted(levels: seq<seq<File>>, e: Entry, x: Entry) {
    exists l, f, m, g :: Above(levels, l, f, m, g) && OlderIn(f, e, g, x)
  }

  ghost predicate OlderIn(f: File, e: Entry, g: File, x: Entry) {
    e in f.entries && x in g.entries && e.key.user == x.key.user && e.key.sequence < x.key.sequence
  }

  /** A newer version than `x` is visible. */
  ghost predicate Masked(stored: set<Entry>, x: Entry, at: nat) {
    exists y :: y in stored && y.key.user == x.key.user && x.key.sequence < y.key.sequence <= at
  }

  ghost predicate OrderedAt(levels: seq<seq<File>>, stored: set<Entry>, at: nat) {
    forall e, x :: Inverted(levels, e, x) && x.key.sequence <= at ==> Masked(stored, x, at)
  }

  lemma TableEntry(s: State, l: int, f: File, e: Entry)
    requires BaseInv(s) && At(s.db.levels, l, f) && e in f.entries
    ensures e in TableEntries(s.db.levels) && e in Stored(s.db) && FromHist(s.hist, e)
  {
    assert e in TableEntries(s.db.levels);
    assert e in Stored(s.db);
  }

  /** Where the newest visible version is in a table, the memtables are silent. */
  lemma OnlyTables(s: State, x: Entry, at: nat)
    requires BaseInv(s) && x in TableEntries(s.db.levels) && x.key.sequence <= at && !Masked(Stored(s.db), x, at)
    ensures DbGet(s.db, x.key.user, at) == VersionGet(s.db.levels, x.key.user, at)
  {
    hide Hit, VersionGet;
    HitIsNewest(s.db.mem, x.key.user, at);
    HitIsNewest(ImmEntries(s.db), x.key.user, at);
  }

  /** An inversion that nothing masks is read. */
  lemma InversionAt(s: State, e: Entry, x: Entry, at: nat)
    requires BaseInv(s) && Inverted(s.db.levels, e, x) && x.key.sequence <= at && !Masked(Stored(s.db), x, at)
    ensures !Reads(Stored(s.db), x.key.user, at, DbGet(s.db, x.key.user, at))
  {
    hide DbGet, VersionGet, Stored, BaseInv;
    var levels := s.db.levels;
    var l, f, m, g :| Above(levels, l, f, m, g) && OlderIn(f, e, g, x);
    TableEntry(s, m, g, x);
    TablesOk(s);
    OnlyTables(s, x, at);
    var i, h := AnswersFromAbove(levels, s.db.nextFile, l, f, e, at);
    var y := VersionGet(levels, x.key.user, at).value;
    Elsewhere(levels, i, h, y, m, g, x);
    TableEntry(s, i, h, y);
  }

  lemma TablesOk(s: State)
    requires BaseInv(s)
    ensures LevelsOk(s.db.levels, s.db.nextFile) && EntriesOnce(s.db.levels) && NumbersOnce(s.db.levels)
  {
  }

  /** What the version answers with: the newest of its level, or of its level-0 file. */
  ghost predicate AnswersWith(levels: seq<seq<File>>, u: UserKey, at: nat, i: nat, h: File, y: Entry) {
    && At(levels, i, h) && y in h.entries && y.key.user == u && y.key.sequence <= at
    && IsNewest(if i == 0 then Elems(h.entries) else FileEntries(levels[i]), u, at, y)
  }

  lemma {:induction false} FirstHitIs(files: seq<File>, u: UserKey, at: nat) returns (h: File)
    requires FirstHit(files, u, at).Some? && forall f :: f in files ==> FileOk(f)
    ensures h in files && FirstHit(files, u, at).value in h.entries
    ensures IsNewest(Elems(h.entries), u, at, FirstHit(files, u, at).value)
  {
    hide Hit;
    assert files[0] in files;
    if Hit(files[0].entries, u, at).Some? {
      h := files[0];
      HitMember(h.entries, u, at);
      HitIsNewest(h.entries, u, at);
    } else {
      h := FirstHitIs(files[1..], u, at);
    }
  }

  lemma {:induction false} DeepGetIs(levels: seq<seq<File>>, j: nat, u: UserKey, at: nat) returns (i: nat)
    requires j <= |levels| && DeepGet(levels, j, u, at).Some?
    ensures j <= i < |levels| && DeepGet(levels, j, u, at) == LevelGet(levels[i], u, at)
    decreases |levels| - j
  {
    hide LevelGet;
    if LevelGet(levels[j], u, at).Some? {
      i := j;
    } else {
      i := DeepGetIs(levels, j + 1, u, at);
    }
  }

  lemma VersionAnswers(levels: seq<seq<File>>, nextFile: nat, u: UserKey, at: nat) returns (i: nat, h: File)
    requires LevelsOk(levels, nextFile) && VersionGet(levels, u, at).Some?
    ensures AnswersWith(levels, u, at, i, h, VersionGet(levels, u, at).value)
  {
    hide FirstHit, SortNewest, LevelGet, DeepGet;
    var zero := SortNewest(Covering(levels[0], u));
    SortNewestSorted(Covering(levels[0], u));
    assert forall f :: f in levels[0] ==> At(levels, 0, f);
    if FirstHit(zero, u, at).Some? {
      i := 0;
      h := FirstHitIs(zero, u, at);
    } else {
      i := DeepGetIs(levels, 1, u, at);
      assert forall f :: f in levels[i] ==> At(levels, i, f);
      LevelGetReads(levels[i], u, at);
      h := LevelGetMember(levels[i], u, at);
    }
  }

  /** Without unmasked inversions the version answers with its newest visible entry. */
  lemma VersionExact(s: State, u: UserKey, at: nat, n: Entry)
    requires BaseInv(s) && OrderedAt(s.db.levels, Stored(s.db), at)
    requires IsNewest(TableEntries(s.db.levels), u, at, n) && !Masked(Stored(s.db), n, at)
    ensures VersionGet(s.db.levels, u, at) == Some(n)
  {
    hide VersionGet, Stored, BaseInv;
    var levels := s.db.levels;
    var m: nat, g: File :| 0 <= m < |levels| && g in levels[m] && n in g.entries;
    TablesOk(s);
    var i, h := AnswersFromAbove(levels, s.db.nextFile, m, g, n, at);
    var y := VersionGet(levels, u, at).value;
    var i', h' := VersionAnswers(levels, s.db.nextFile, u, at);
    TableEntry(s, i, h, y);
    TableEntry(s, m, g, n);
    NotOlder(levels, i, h, i', h', y, m, g, n, u, at);
  }

  /** The answer is not older than another visible entry of its level or file. */
  lemma NotOlder(levels: seq<seq<File>>, i: nat, h: File, i': nat, h': File, y: Entry, m: nat, g: File, n: Entry,
                 u: UserKey, at: nat)
    requires EntriesOnce(levels) && NumbersOnce(levels) && At(levels, i, h) && y in h.entries
    requires AnswersWith(levels, u, at, i', h', y)
    requires At(levels, m, g) && n in g.entries && n.key.user == u && n.key.sequence <= at
    requires i <= m && (i == m == 0 ==> h.number >= g.number)
    ensures y.key.sequence < n.key.sequence ==> Inverted(levels, y, n)
  {
    assert i == i' && h == h';
    if i == m && i > 0 {
      assert n in FileEntries(levels[i]);
    }
    if Above(levels, i, h, m, g) && y.key.sequence < n.key.sequence {
      assert OlderIn(h, y, g, n);
    }
  }

  /** At one sequence: Get is exact if and only if every inversion is masked there. */
  lemma GetExactAtIff(s: State, at: nat)
    requires BaseInv(s)
    ensures GetExactAt(s.db, at) <==> OrderedAt(s.db.levels, Stored(s.db), at)
  {
    hide DbGet, Reads, Stored, BaseInv, Inverted, Masked;
    TablesOk(s);
    if OrderedAt(s.db.levels, Stored(s.db), at) {
      forall u
        ensures Reads(Stored(s.db), u, at, DbGet(s.db, u, at))
      {
        OrderedReads(s, u, at);
      }
    } else {
      var e, x :| Inverted(s.db.levels, e, x) && x.key.sequence <= at && !Masked(Stored(s.db), x, at);
      InversionAt(s, e, x, at);
    }
  }

  lemma OrderedReads(s: State, u: UserKey, at: nat)
    requires BaseInv(s) && OrderedAt(s.db.levels, Stored(s.db), at)
    ensures Reads(Stored(s.db), u, at, DbGet(s.db, u, at))
  {
    hide Hit, VersionGet, OrderedAt;
    var mem, imm, tables := Elems(s.db.mem), Elems(ImmEntries(s.db)), TableEntries(s.db.levels);
    HitIsNewest(s.db.mem, u, at);
    HitIsNewest(ImmEntries(s.db), u, at);
    if Hit(s.db.mem, u, at).None? && Hit(ImmEntries(s.db), u, at).None? {
      TablesRead(s, u, at);
    }
    Layer(imm, tables, u, at);
    Layer(mem, imm + tables, u, at);
    UnionShuffle(mem, imm, tables);
  }

  lemma TablesRead(s: State, u: UserKey, at: nat)
    requires BaseInv(s) && OrderedAt(s.db.levels, Stored(s.db), at)
    requires NoneVisible(Elems(s.db.mem), u, at) && NoneVisible(Elems(ImmEntries(s.db)), u, at)
    ensures Reads(TableEntries(s.db.levels), u, at, VersionGet(s.db.levels, u, at))
  {
    hide VersionGet, OrderedAt, BaseInv, TableEntries;
    var tables := TableEntries(s.db.levels);
    TablesOk(s);
    if y :| y in tables && y.key.user == u && y.key.sequence <= at {
      var n := SomeNewest(tables, u, at, y);
      VersionExact(s, u, at, n);
    } else if VersionGet(s.db.levels, u, at).Some? {
      var i, h := VersionAnswers(s.db.levels, s.db.nextFile, u, at);
      TableEntry(s, i, h, VersionGet(s.db.levels, u, at).value);
    }
  }

  // ----- the invariant

  ghost predicate OrderedPromised(s: State, r: Reach) {
    forall at: nat :: Promised(s, r, at) ==> OrderedAt(s.db.levels, Stored(s.db), at)
  }

  ghost predicate ShownPromised(s: State, r: Reach) {
    forall at: nat, u :: Promised(s, r, at) && at <= |s.hist| ==> Shown(s.hist, Stored(s.db), u, at)
  }

  ghost predicate PromisedInv(s: State, r: Reach) {
    Sound(s) && OrderedPromised(s, r) && ShownPromised(s, r)
  }

  lemma PromisedSequences(s: State, r: Reach)
    requires Sound(s)
    ensures forall at: nat :: Promised(s, r, at) ==> at <= |s.hist|
    ensures r.Live? ==> forall at: nat :: Promised(s, r, at) ==> SmallestSnapshot(s.db) <= at
    ensures Promised(s, r, SmallestSnapshot(s.db)) && s.floor <= SmallestSnapshot(s.db) <= |s.hist|
  {
    forall at: nat | at in s.db.snapshots
      ensures SmallestSnapshot(s.db) <= at <= |s.hist|
    {
      var i :| 0 <= i < |s.db.snapshots| && s.db.snapshots[i] == at;
    }
  }

  lemma ShownAnswers(s: State, at: nat)
    requires Sound(s) && at <= |s.hist| && forall u :: Shown(s.hist, Stored(s.db), u, at)
    ensures AnswersAt(s.hist, Stored(s.db), at)
  {
    hide Shown, Reads, Stored;
    StoredFromHist(s);
    forall u, r | Reads(Stored(s.db), u, at, r)
      ensures AnswerOf(r) == Lookup(Replay(s.hist[..at]), u)
    {
      ShownReads(s.hist, Stored(s.db), u, at, r);
    }
  }

  lemma StoredFromHist(s: State)
    requires Sound(s)
    ensures HistOk(s.hist) && AllFromHist(s.hist, Stored(s.db)) && |s.hist| == s.db.lastSequence
  {
  }

  lemma InvIsRight(s: State, r: Reach)
    requires PromisedInv(s, r)
    ensures |s.db.levels| == NUM_LEVELS && PromisedRight(s, r)
  {
    hide GetExactAt, AnswersAt, OrderedAt, Shown, Stored;
    PromisedSequences(s, r);
    forall at: nat | Promised(s, r, at)
      ensures GetExactAt(s.db, at) && AnswersAt(s.hist, Stored(s.db), at)
    {
      GetExactAtIff(s, at);
      ShownAnswers(s, at);
    }
  }

  /** Right reads are ordered. */
  lemma RightIsOrdered(s: State, r: Reach)
    requires BaseInv(s)
    ensures |s.db.levels| == NUM_LEVELS
    ensures (forall at: nat :: Promised(s, r, at) ==> GetExactAt(s.db, at)) <==> OrderedPromised(s, r)
  {
    hide GetExactAt, OrderedAt, BaseInv;
    TablesOk(s);
    forall at: nat
      ensures GetExactAt(s.db, at) <==> OrderedAt(s.db.levels, Stored(s.db), at)
    {
      GetExactAtIff(s, at);
    }
  }

  // ----- steps that only add newer entries

  lemma NextKeepsSound(s: State, step: Step, s': State)
    requires Sound(s) && Next(s, step, s')
    ensures Sound(s')
  {
    hide BaseInv;
    TablesOk(s);
    NextKeepsBase(s, step, s');
    NextSnapshots(s, step, s');
  }

  lemma NextSnapshots(s: State, step: Step, s': State)
    requires |s.db.levels| == NUM_LEVELS && SnapshotsOk(s.db, s.floor) && Next(s, step, s')
    ensures SnapshotsOk(s'.db, s'.floor)
  {
    hide FlushTo, Chosen, Replaced, IsCompaction, Reopened;
    if step.Reopen? {
      assert s'.db.snapshots == [] && s'.db.lastSequence == s.db.lastSequence by {
        ReopenDrops(s.db, step.files, step.first, s'.db);
      }
    }
  }

  lemma ReopenDrops(db: Db, files: seq<File>, first: nat, db': Db)
    requires |db.levels| == NUM_LEVELS && Reopened(db, files, first, db')
    ensures db'.snapshots == [] && db'.lastSequence == db.lastSequence
  {
  }

  lemma FlushInversions(levels: seq<seq<File>>, nextFile: nat, f: File, level: nat, levels': seq<seq<File>>,
                        e: Entry, x: Entry)
    requires LevelsOk(levels, nextFile) && NewFile(levels, nextFile, f) && FlushTo(levels, f, level, levels')
    requires AllNewer(Elems(f.entries), TableEntries(levels)) && Inverted(levels', e, x)
    ensures Inverted(levels, e, x)
  {
    hide FileOk, InOrder, Disjoint;
    var l, g, m, h :| Above(levels', l, g, m, h) && OlderIn(g, e, h, x);
    FlushOrigin(levels, f, level, levels', l, g);
    FlushOrigin(levels, f, level, levels', m, h);
    if At(levels, m, h) {
      assert x in TableEntries(levels);
      assert g == f ==> e in Elems(f.entries);
      assert Above(levels, l, g, m, h);
    } else if At(levels, l, g) {
      FlushedAbove(levels, nextFile, f, level, l, g, e, x);
    }
  }

  /** What a new table shares a key with lies below it. */
  lemma FlushedAbove(levels: seq<seq<File>>, nextFile: nat, f: File, level: nat, l: int, g: File, e: Entry, x: Entry)
    requires LevelsOk(levels, nextFile) && NewFile(levels, nextFile, f) && level <= MAX_MEM_COMPACT_LEVEL
    requires level > 0 ==> FreeDownTo(levels, level, f.smallest.user, f.largest.user)
    requires At(levels, l, g) && e in g.entries && x in f.entries && e.key.user == x.key.user
    ensures l >= level && (level == 0 && l == 0 ==> g.number < f.number)
  {
    InRange(f, x);
    InRange(g, e);
    assert l < level ==> !Overlaps(g, Some(f.smallest.user), Some(f.largest.user));
  }

  /** Over the same entries no new inversion does harm. */
  lemma FewerInversions(s: State, r: Reach, s': State)
    requires PromisedInv(s, r) && Sound(s') && s'.hist == s.hist && Stored(s'.db) == Stored(s.db)
    requires forall at: nat :: Promised(s', r, at) ==> Promised(s, r, at)
    requires forall e, x :: Inverted(s'.db.levels, e, x) ==> Inverted(s.db.levels, e, x)
    ensures PromisedInv(s', r)
  {
    hide Shown, Inverted, Sound, Masked, Stored, Promised;
  }

  lemma FlushKeepsPromised(s: State, r: Reach, level: nat, size: nat, s': State)
    requires PromisedInv(s, r) && Next(s, Flush(level, size), s')
    ensures PromisedInv(s', r)
  {
    hide Inverted, OrderedPromised, ShownPromised;
    FlushKeepsBase(s, level, size, s');
    NextKeepsSound(s, Flush(level, size), s');
    forall e, x | Inverted(s'.db.levels, e, x)
      ensures Inverted(s.db.levels, e, x)
    {
      var imm := s.db.imm.value;
      if imm != [] {
        FlushInversions(s.db.levels, s.db.nextFile, FileOf(s.db.nextFile, size, imm), level, s'.db.levels, e, x);
      }
    }
    FewerInversions(s, r, s');
  }

  lemma ReopenInversions(s: State, files: seq<File>, first: nat, s': State, e: Entry, x: Entry)
    requires Sound(s) && Next(s, Reopen(files, first), s') && Inverted(s'.db.levels, e, x)
    ensures Inverted(s.db.levels, e, x)
  {
    hide Newer, FileOk, InOrder, Disjoint;
    var levels := s.db.levels;
    var l, f, m, g :| Above(s'.db.levels, l, f, m, g) && OlderIn(f, e, g, x);
    ReopenOrigin(s.db, files, first, s'.db, l, f);
    ReopenOrigin(s.db, files, first, s'.db, m, g);
    if At(levels, l, f) {
      assert Above(levels, l, f, m, g);
    } else {
      NewTableAbove(s, files, first, s', f, e, m, g, x);
    }
  }

  /** A recovered table is newer than what is searched behind it. */
  lemma NewTableAbove(s: State, files: seq<File>, first: nat, s': State, f: File, e: Entry, m: int, g: File, x: Entry)
    requires Sound(s) && Next(s, Reopen(files, first), s') && f in files && e in f.entries && x in g.entries
    requires (m == 0 && g in files && g.number < f.number) || At(s.db.levels, m, g)
    requires e.key.user == x.key.user
    ensures e.key.sequence > x.key.sequence
  {
    hide FileOk, InOrder, Disjoint;
    if At(s.db.levels, m, g) {
      RecoveredIsNewer(s.db, files, f, m, g);
    } else {
      LaterIsNewer(files, first, s'.db.nextFile, f, g);
    }
  }

  lemma ReopenKeepsPromised(s: State, r: Reach, files: seq<File>, first: nat, s': State)
    requires PromisedInv(s, r) && Next(s, Reopen(files, first), s')
    ensures PromisedInv(s', r)
  {
    hide Inverted, OrderedPromised, ShownPromised;
    ReopenKeepsBase(s, files, first, s');
    NextKeepsSound(s, Reopen(files, first), s');
    forall e, x | Inverted(s'.db.levels, e, x)
      ensures Inverted(s.db.levels, e, x)
    {
      ReopenInversions(s, files, first, s', e, x);
    }
    FewerInversions(s, r, s');
  }

  lemma WriteKeepsPromised(s: State, r: Reach, es: seq<Entry>, s': State)
    requires PromisedInv(s, r) && Next(s, Write(es), s')
    ensures PromisedInv(s', r)
  {
    hide Shown, Inverted;
    NextKeepsSound(s, Write(es), s');
    WriteKeepsBase(s, es, s');
    BatchExtendsHistory(s.hist, es);
    PromisedSequences(s, r);
    StoredFromHist(s);
    forall at: nat | Promised(s', r, at)
      ensures OrderedAt(s'.db.levels, Stored(s'.db), at)
      ensures forall u :: at <= |s'.hist| ==> Shown(s'.hist, Stored(s'.db), u, at)
    {
      var before := if at <= |s.hist| then at else |s.hist|;
      assert Promised(s, r, before);
      WriteOrdered(s, s', Elems(es), before, at);
      forall u | at <= |s'.hist|
        ensures Shown(s'.hist, Stored(s'.db), u, at)
      {
        assert Shown(s.hist, Stored(s.db), u, before);
        WriteKeepsShown(s.hist, Stored(s.db), es, u, at);
      }
    }
  }

  lemma WriteOrdered(s: State, s': State, es: set<Entry>, before: nat, at: nat)
    requires Sound(s) && s'.db.levels == s.db.levels && Stored(s'.db) == Stored(s.db) + es
    requires OrderedAt(s.db.levels, Stored(s.db), before) && before <= at && (before < at ==> before == |s.hist|)
    ensures OrderedAt(s'.db.levels, Stored(s'.db), at)
  {
    forall e, x | Inverted(s'.db.levels, e, x) && x.key.sequence <= at
      ensures Masked(Stored(s'.db), x, at)
    {
      var l, f, m, g :| Above(s.db.levels, l, f, m, g) && OlderIn(f, e, g, x);
      TableEntry(s, m, g, x);
      assert Masked(Stored(s.db), x, before);
    }
  }

  lemma SameTablesKeepPromised(s: State, r: Reach, step: Step, s': State)
    requires PromisedInv(s, r) && Next(s, step, s')
             && (step.SwitchMemTable? || step.GetSnapshot? || step.ReleaseSnapshot?)
    ensures PromisedInv(s', r)
  {
    hide Inverted, OrderedPromised, ShownPromised, Sound;
    NextKeepsSound(s, step, s');
    assert Stored(s'.db) == Stored(s.db);
    FewerInversions(s, r, s');
  }

  // ----- compactions

  /** The older `e` stays at the upper level while the newer `x` goes down. */
  ghost predicate LeftBehind(levels: seq<seq<File>>, from: nat, in0: seq<File>, e: Entry, x: Entry)
    requires from < |levels|
  {
    exists f, h :: f in levels[from] && f !in in0 && h in in0 && OlderIn(f, e, h, x)
  }

  /** A deletion that the loop drops because no deeper level can hold its key. */
  ghost predicate DroppedAtBase(db: Db, from: nat, x: Entry)
    requires |db.levels| == NUM_LEVELS
  {
    x.key.kind.Deletion? && x.key.sequence <= SmallestSnapshot(db) && IsBase(db.levels, from, x.key.user)
  }

  ghost predicate Sees(db: Db, at: nat, x: Entry) {
    IsNewest(Stored(db), x.key.user, at, x)
  }

  /** Nothing that reads at `at` see goes below an older version, unless it is dropped. */
  ghost predicate LeftSafe(db: Db, from: nat, in0: seq<File>, at: nat)
    requires |db.levels| == NUM_LEVELS && from < NUM_LEVELS
  {
    forall e, x :: LeftBehind(db.levels, from, in0, e, x) && Sees(db, at, x) ==> DroppedAtBase(db, from, x)
  }

  /** What comes to light under a dropped deletion lies below none of its older versions. */
  ghost predicate UncoversInOrder(db: Db, from: nat, in0: seq<File>, in1: seq<File>)
    requires |db.levels| == NUM_LEVELS
  {
    var others := Others(db.levels, from, in0, in1);
    forall z, e, x :: Uncovers(db, from, in0, in1, z, x) && e in others ==> !Inverted(db.levels, e, x)
  }

  /** Dropping `z` lets reads at the smallest snapshot see `x`. */
  ghost predicate Uncovers(db: Db, from: nat, in0: seq<File>, in1: seq<File>, z: Entry, x: Entry)
    requires |db.levels| == NUM_LEVELS
  {
    && z in FileEntries(in0 + in1) && DroppedAtBase(db, from, z) && Sees(db, SmallestSnapshot(db), z)
    && IsNewest(Others(db.levels, from, in0, in1), z.key.user, z.key.sequence, x)
  }

  /** What right promised reads need of a step, said on the state before it. */
  ghost predicate CleanPromised(s: State, r: Reach, step: Step)
    requires |s.db.levels| == NUM_LEVELS
  {
    match step
    case Compact(from, in0, in1, _, _, _) =>
      && from + 1 < NUM_LEVELS && DeletionsSafe(s.db, from, in0, in1) && UncoversInOrder(s.db, from, in0, in1)
      && forall at: nat :: Promised(s, r, at) && SmallestSnapshot(s.db) <= at ==> LeftSafe(s.db, from, in0, at)
    case TrivialMove(from, f) =>
      && from + 1 < NUM_LEVELS
      && forall at: nat, e, x :: Promised(s, r, at) && LeftBehind(s.db.levels, from, [f], e, x) ==> !Sees(s.db, at, x)
    case _ => true
  }

  lemma InvertedOrigin(levels: seq<seq<File>>, from: nat, in0: seq<File>, in1: seq<File>, outs: seq<File>,
                       levels': seq<seq<File>>, e: Entry, x: Entry)
    requires |levels| == NUM_LEVELS && from + 1 < NUM_LEVELS
    requires (forall h :: h in in0 ==> At(levels, from, h)) && (forall h :: h in in1 ==> At(levels, from + 1, h))
    requires OutsFrom(outs, in0 + in1) && Replaced(levels, from, in0, in1, outs, levels') && Inverted(levels', e, x)
    ensures Inverted(levels, e, x) || LeftBehind(levels, from, in0, e, x)
  {
    hide Replaced;
    var l, f, m, g :| Above(levels', l, f, m, g) && OlderIn(f, e, g, x);
    Origin(levels, from, in0, in1, outs, levels', l, f);
    Origin(levels, from, in0, in1, outs, levels', m, g);
    if At(levels, l, f) && At(levels, m, g) && !(m == from + 1 && g in outs) && !(l == from + 1 && f in outs) {
      assert Above(levels, l, f, m, g);
    } else if m == from + 1 && g in outs {
      var h :| h in in0 + in1 && x in h.entries;
      if h in in1 {
        assert Above(levels, l, f, from + 1, h);
      } else if l < from {
        assert Above(levels, l, f, from, h);
      }
    } else {
      var h :| h in in0 + in1 && e in h.entries;
      if h in in0 {
        assert Above(levels, from, h, m, g);
      } else {
        assert Above(levels, from + 1, h, m, g);
      }
    }
  }

  ghost predicate IsCompactStep(s: State, step: Step, merged: seq<Entry>, s': State) {
    && Sound(s) && step.Compact? && Next(s, step, s')
    && CompactionResult(s.db, step.from, step.in0, step.in1, merged, step.outs)
  }

  ghost function Ins(step: Step): set<Entry>
    requires step.Compact?
  {
    FileEntries(step.in0 + step.in1)
  }

  /** What the step stores before and after, and that its inputs are nowhere else. */
  lemma CompactFrame(s: State, step: Step, merged: seq<Entry>, s': State)
    requires IsCompactStep(s, step, merged, s')
    ensures var beside := Beside(s.db, step.from, step.in0, step.in1);
            Stored(s.db) == beside + Ins(step) && Stored(s'.db) == beside + FileEntries(step.outs)
    ensures var others := Others(s.db.levels, step.from, step.in0, step.in1);
            TableEntries(s'.db.levels) == others + FileEntries(step.outs)
    ensures forall e :: e in Ins(step) ==> e !in Beside(s.db, step.from, step.in0, step.in1)
    ensures FileEntries(step.outs) <= Ins(step) && AllFromHist(s.hist, Stored(s.db))
    ensures s'.hist == s.hist
  {
    hide CompactionResult, Dropped, IsBase;
    ReplacedEntries(s.db.levels, step.from, step.in0, step.in1, step.outs, s'.db.levels);
    CompactStores(s.db, step, s'.db);
    CompactionDrops(s, step, merged, Ins(step), FileEntries(step.outs));
    forall e | e in Ins(step)
      ensures e !in Beside(s.db, step.from, step.in0, step.in1)
    {
      InputApart(s, step, e);
    }
  }

  /** A compaction takes back the promise for the sequences below its snapshot. */
  lemma CompactPromise(s: State, r: Reach, step: Step, merged: seq<Entry>, s': State)
    requires IsCompactStep(s, step, merged, s')
    ensures forall at: nat :: Promised(s', r, at) <==> Promised(s, r, at) && SmallestSnapshot(s.db) <= at
    ensures Promised(s', r, SmallestSnapshot(s.db)) && SmallestSnapshot(s.db) <= |s.hist|
    ensures forall at: nat :: Promised(s', r, at) ==> at <= |s.hist|
  {
    hide CompactionResult, BaseInv, Chosen, Replaced;
    PromisedSequences(s, r);
  }

  lemma InputApart(s: State, step: Step, e: Entry)
    requires Sound(s) && step.Compact? && Chosen(s.db.levels, step.from, step.in0, step.in1, step.lo, step.hi)
    requires e in FileEntries(step.in0 + step.in1)
    ensures e !in Beside(s.db, step.from, step.in0, step.in1)
  {
    InputsStored(s, step);
    var h :| h in step.in0 + step.in1 && e in h.entries;
    assert At(s.db.levels, step.from, h) || At(s.db.levels, step.from + 1, h);
    if e in Others(s.db.levels, step.from, step.in0, step.in1) {
      var l, f :| 0 <= l < |s.db.levels| && f in s.db.levels[l] && e in f.entries
          && !(l == step.from && f in step.in0) && !(l == step.from + 1 && f in step.in1);
      OldBesideNew(s.db.levels, s.db.nextFile, step.from, step.in0, step.in1, l, f);
    }
  }

  /** What a read from the smallest snapshot on sees is kept, or dropped at the base level. */
  lemma SeenIsKept(s: State, step: Step, merged: seq<Entry>, s': State, at: nat, x: Entry)
    requires IsCompactStep(s, step, merged, s') && SmallestSnapshot(s.db) <= at && Sees(s.db, at, x)
    ensures x in Stored(s'.db) || (x in Ins(step) && DroppedAtBase(s.db, step.from, x))
    ensures x in Ins(step) && !DroppedAtBase(s.db, step.from, x) ==> x in FileEntries(step.outs)
  {
    hide CompactionResult, IsBase, Sound, Next, Stored, Beside, FileEntries;
    CompactFrame(s, step, merged, s');
    if x in Ins(step) && x !in FileEntries(step.outs) {
      IsChosen(s, step, merged, s');
      DropIsJust(s, step, merged, x);
    }
  }

  lemma IsChosen(s: State, step: Step, merged: seq<Entry>, s': State)
    requires IsCompactStep(s, step, merged, s')
    ensures |s.db.levels| == NUM_LEVELS && Chosen(s.db.levels, step.from, step.in0, step.in1, step.lo, step.hi)
  {
  }

  /** Under an input that reads at the snapshot see, the outputs hold nothing. */
  lemma BelowSeen(s: State, step: Step, merged: seq<Entry>, s': State, z: Entry, y: Entry)
    requires IsCompactStep(s, step, merged, s') && z in Ins(step) && z.key.sequence <= SmallestSnapshot(s.db)
    requires y in Stored(s'.db) && y.key.user == z.key.user && y.key.sequence < z.key.sequence
    ensures y in Others(s.db.levels, step.from, step.in0, step.in1)
  {
    hide CompactionResult, IsBase, Next, FileEntries, LevelsOk, HistOk, Others;
    CompactFrame(s, step, merged, s');
    IsChosen(s, step, merged, s');
    if y in FileEntries(step.outs) {
      KeptIsNotHidden(s, step, merged, y, z);
    }
    InputsStored(s, step);
    assert z in TableEntries(s.db.levels);
  }

  /** An inversion after the step was there before, or an older version was left behind. */
  lemma CompactInversion(s: State, step: Step, merged: seq<Entry>, s': State, e: Entry, x: Entry)
    requires IsCompactStep(s, step, merged, s') && Inverted(s'.db.levels, e, x)
    ensures |s.db.levels| == NUM_LEVELS && step.from + 1 < NUM_LEVELS
    ensures Inverted(s.db.levels, e, x) || (LeftBehind(s.db.levels, step.from, step.in0, e, x) && x in Ins(step))
    ensures e in Stored(s'.db) && x in Stored(s'.db) && e.key.user == x.key.user && e.key.sequence < x.key.sequence
  {
    hide CompactionResult, Sound;
    InversionStored(s', e, x);
    IsChosen(s, step, merged, s');
    StepOuts(s, step, s');
    InvertedOrigin(s.db.levels, step.from, step.in0, step.in1, step.outs, s'.db.levels, e, x);
    if LeftBehind(s.db.levels, step.from, step.in0, e, x) {
      var f, h :| f in s.db.levels[step.from] && f !in step.in0 && h in step.in0 && OlderIn(f, e, h, x);
      assert h in step.in0 + step.in1;
    }
  }

  lemma InversionStored(s: State, e: Entry, x: Entry)
    requires Inverted(s.db.levels, e, x)
    ensures e in Stored(s.db) && x in Stored(s.db) && e.key.user == x.key.user && e.key.sequence < x.key.sequence
    ensures e in TableEntries(s.db.levels) && x in TableEntries(s.db.levels)
  {
  }

  lemma StepOuts(s: State, step: Step, s': State)
    requires Sound(s) && step.Compact? && Next(s, step, s')
    ensures OutsFrom(step.outs, step.in0 + step.in1)
  {
    CompactKeepsBase(s, step, s');
  }

  /** If `x` comes to light, a dropped deletion hid it. */
  lemma UncoveredBy(s: State, step: Step, merged: seq<Entry>, s': State, at: nat, x: Entry) returns (z: Entry)
    requires IsCompactStep(s, step, merged, s') && SmallestSnapshot(s.db) <= at
    requires x in Stored(s'.db) && x.key.sequence <= at && !Masked(Stored(s'.db), x, at) && Masked(Stored(s.db), x, at)
    ensures |s.db.levels| == NUM_LEVELS && Uncovers(s.db, step.from, step.in0, step.in1, z, x)
    ensures z in Ins(step) && z.key.user == x.key.user && x.key.sequence < z.key.sequence <= SmallestSnapshot(s.db)
  {
    hide IsCompactStep, Stored, IsBase, Others, FileEntries;
    var y :| y in Stored(s.db) && y.key.user == x.key.user && x.key.sequence < y.key.sequence <= at;
    z := SomeNewest(Stored(s.db), x.key.user, at, y);
    StepLevels(s, step, merged, s');
    SeenIsKept(s, step, merged, s', at, z);
    BelowSeen(s, step, merged, s', z, x);
    OthersStay(s, step, merged, s');
  }

  lemma StepLevels(s: State, step: Step, merged: seq<Entry>, s': State)
    requires IsCompactStep(s, step, merged, s')
    ensures Sound(s) && step.Compact? && |s.db.levels| == NUM_LEVELS && step.from + 1 < NUM_LEVELS
    ensures CompactionResult(s.db, step.from, step.in0, step.in1, merged, step.outs)
  {
  }

  lemma OthersStay(s: State, step: Step, merged: seq<Entry>, s': State)
    requires IsCompactStep(s, step, merged, s')
    ensures Others(s.db.levels, step.from, step.in0, step.in1) <= Stored(s'.db) <= Stored(s.db)
    ensures forall e :: e in Ins(step) ==> e !in Others(s.db.levels, step.from, step.in0, step.in1)
    ensures forall e :: e in Ins(step) && e in Stored(s'.db) ==> e in FileEntries(step.outs)
  {
    hide CompactionResult, Next, Sound, IsBase;
    CompactFrame(s, step, merged, s');
  }

  /** Clean compactions uncover no inversion at a promised sequence. */
  lemma CompactOrdered(s: State, r: Reach, step: Step, merged: seq<Entry>, s': State, at: nat, e: Entry, x: Entry)
    requires IsCompactStep(s, step, merged, s') && PromisedInv(s, r) && CleanPromised(s, r, step)
    requires Promised(s, r, at) && SmallestSnapshot(s.db) <= at && Inverted(s'.db.levels, e, x) && x.key.sequence <= at
    ensures Masked(Stored(s'.db), x, at)
  {
    hide IsCompactStep, Inverted, LeftBehind, Stored, IsBase, Others, FileEntries, Sound, ShownPromised, Uncovers;
    hide DeletionsSafe;
    StepLevels(s, step, merged, s');
    CompactInversion(s, step, merged, s', e, x);
    PromisedSequences(s, r);
    OthersStay(s, step, merged, s');
    if !Masked(Stored(s'.db), x, at) {
      if Masked(Stored(s.db), x, at) {
        var z := UncoveredBy(s, step, merged, s', at, x);
        BelowSeen(s, step, merged, s', z, e);
        BelowSeen(s, step, merged, s', z, x);
      } else {
        assert Sees(s.db, at, x);
        assert LeftSafe(s.db, step.from, step.in0, at) && OrderedAt(s.db.levels, Stored(s.db), at);
        NotKept(s, step, merged, s', x);
      }
    }
  }

  lemma NotKept(s: State, step: Step, merged: seq<Entry>, s': State, x: Entry)
    requires IsCompactStep(s, step, merged, s') && DroppedAtBase(s.db, step.from, x)
    ensures x !in FileEntries(step.outs)
  {
    hide IsBase, CompactionResult;
    DeletionIsDropped(s, step, merged, x);
  }

  lemma CompactShown(s: State, r: Reach, step: Step, merged: seq<Entry>, s': State)
    requires IsCompactStep(s, step, merged, s') && ShownPromised(s, r)
    requires DeletionsSafe(s.db, step.from, step.in0, step.in1)
    ensures ShownPromised(s', r)
  {
    hide CompactionResult, Shown, Next, Beside, DropsAreJust, HiddenAreDropped, IsBase, Stored, DeletionsSafe, Promised;
    var ins, outs, snapshot := Ins(step), FileEntries(step.outs), SmallestSnapshot(s.db);
    var beside := Beside(s.db, step.from, step.in0, step.in1);
    CompactFrame(s, step, merged, s');
    IsChosen(s, step, merged, s');
    DeletionsSafeIff(s, step, merged);
    CompactionDrops(s, step, merged, ins, outs);
    CompactPromise(s, r, step, merged, s');
    forall at: nat, u | Promised(s', r, at)
      ensures Shown(s.hist, beside + outs, u, at)
    {
      DropsKeepShown(s.hist, beside, ins, outs, snapshot, u, at);
    }
  }

  lemma CompactKeepsPromised(s: State, r: Reach, step: Step, merged: seq<Entry>, s': State)
    requires IsCompactStep(s, step, merged, s') && PromisedInv(s, r) && CleanPromised(s, r, step)
    ensures PromisedInv(s', r)
  {
    hide CompactionResult, Inverted, Masked, Stored, Next, DeletionsSafe, Sound, ShownPromised, UncoversInOrder,
        LeftSafe;
    NextKeepsSound(s, step, s');
    CompactShown(s, r, step, merged, s');
    CompactPromise(s, r, step, merged, s');
    forall at: nat, e, x | Promised(s', r, at) && Inverted(s'.db.levels, e, x) && x.key.sequence <= at
      ensures Masked(Stored(s'.db), x, at)
    {
      CompactOrdered(s, r, step, merged, s', at, e, x);
    }
  }

  /** A drop that is not just makes an answer at the snapshot wrong. */
  lemma UnjustAnswer(hist: seq<Entry>, beside: set<Entry>, ins: set<Entry>, outs: set<Entry>, snapshot: nat)
    requires snapshot <= |hist| && AllFromHist(hist, beside + ins) && HistOk(hist)
    requires forall u :: Shown(hist, beside + ins, u, snapshot)
    requires outs <= ins && HiddenAreDropped(ins, outs, snapshot) && DropsByRule(ins, outs, snapshot)
    requires !DropsAreJust(beside, ins, outs, snapshot)
    ensures !AnswersAt(hist, beside + outs, snapshot)
  {
    hide HiddenAreDropped, Shown, Reads;
    var e :| e in ins && e !in outs && !JustDrop(beside, ins, e, snapshot);
    var x :| IsNewest(beside, e.key.user, e.key.sequence, x) && !x.key.kind.Deletion?;
    UnjustDrop(hist, beside, ins, outs, snapshot, e, x);
  }

  /** A deletion that uncovers a value makes the read at the smallest snapshot wrong. */
  lemma UnsafeDeletion(s: State, r: Reach, step: Step, merged: seq<Entry>, s': State)
    requires IsCompactStep(s, step, merged, s') && ShownPromised(s, r)
    requires !DeletionsSafe(s.db, step.from, step.in0, step.in1)
    ensures SmallestSnapshot(s.db) <= |s'.hist|
    ensures !AnswersAt(s'.hist, Stored(s'.db), SmallestSnapshot(s.db))
  {
    hide CompactionResult, IsCompactStep, Shown, Beside, HiddenAreDropped, DropsByRule, DropsAreJust, Stored;
    hide DeletionsSafe, Sound, Promised, AnswersAt, Next;
    StepLevels(s, step, merged, s');
    var ins, outs, snapshot := Ins(step), FileEntries(step.outs), SmallestSnapshot(s.db);
    var beside := Beside(s.db, step.from, step.in0, step.in1);
    CompactFrame(s, step, merged, s');
    IsChosen(s, step, merged, s');
    DeletionsSafeIff(s, step, merged);
    CompactionDrops(s, step, merged, ins, outs);
    PromisedSequences(s, r);
    StoredFromHist(s);
    UnjustAnswer(s.hist, beside, ins, outs, snapshot);
  }

  /** What goes down past an older version that stays is not found any more. */
  lemma LeftIsInverted(s: State, step: Step, merged: seq<Entry>, s': State, at: nat, e: Entry, x: Entry)
    requires IsCompactStep(s, step, merged, s') && SmallestSnapshot(s.db) <= at
    requires LeftBehind(s.db.levels, step.from, step.in0, e, x) && Sees(s.db, at, x)
    requires !DroppedAtBase(s.db, step.from, x)
    ensures !OrderedAt(s'.db.levels, Stored(s'.db), at)
  {
    hide CompactionResult, IsBase, Sound, Stored, FileOk, InOrder, NumbersFrom;
    var f, h :| f in s.db.levels[step.from] && f !in step.in0 && h in step.in0 && OlderIn(f, e, h, x);
    assert h in step.in0 + step.in1 && x in Ins(step);
    SeenIsKept(s, step, merged, s', at, x);
    var o :| o in step.outs && x in o.entries;
    assert Above(s'.db.levels, step.from, f, step.from + 1, o);
    assert Inverted(s'.db.levels, e, x);
    OthersStay(s, step, merged, s');
  }

  /** What stays in place keeps its inversions. */
  lemma StaysInverted(s: State, step: Step, merged: seq<Entry>, s': State, e: Entry, x: Entry)
    requires IsCompactStep(s, step, merged, s') && Inverted(s.db.levels, e, x)
    requires var others := Others(s.db.levels, step.from, step.in0, step.in1); e in others && x in others
    ensures Inverted(s'.db.levels, e, x)
  {
    hide CompactionResult, IsBase, FileOk, InOrder, NumbersFrom;
    var l, f, m, g :| Above(s.db.levels, l, f, m, g) && OlderIn(f, e, g, x);
    StaysAt(s, step, merged, s', l, f, e);
    StaysAt(s, step, merged, s', m, g, x);
    assert Above(s'.db.levels, l, f, m, g);
  }

  lemma StaysAt(s: State, step: Step, merged: seq<Entry>, s': State, l: nat, f: File, e: Entry)
    requires IsCompactStep(s, step, merged, s') && At(s.db.levels, l, f) && e in f.entries
    requires e in Others(s.db.levels, step.from, step.in0, step.in1)
    ensures At(s'.db.levels, l, f)
  {
    hide CompactionResult, IsBase, FileOk, InOrder, NumbersFrom;
    var m, g :| 0 <= m < |s.db.levels| && g in s.db.levels[m] && e in g.entries
        && !(m == step.from && g in step.in0) && !(m == step.from + 1 && g in step.in1);
    assert At(s.db.levels, m, g) && m == l && g == f;
    if l != step.from && l != step.from + 1 {
      assert s'.db.levels[l] == s.db.levels[l];
    }
  }

  /** An inversion under a dropped deletion is read at the smallest snapshot. */
  lemma UncoveredInversion(s: State, step: Step, merged: seq<Entry>, s': State, z: Entry, e: Entry, x: Entry)
    requires IsCompactStep(s, step, merged, s') && Uncovers(s.db, step.from, step.in0, step.in1, z, x)
    requires e in Others(s.db.levels, step.from, step.in0, step.in1) && Inverted(s.db.levels, e, x)
    ensures !OrderedAt(s'.db.levels, Stored(s'.db), SmallestSnapshot(s.db))
  {
    hide IsCompactStep, Inverted, Stored, IsBase, Others, FileEntries;
    StepLevels(s, step, merged, s');
    StaysInverted(s, step, merged, s', e, x);
    OthersStay(s, step, merged, s');
    NotKept(s, step, merged, s', z);
    forall y | y in Stored(s'.db) && y.key.user == x.key.user
        && x.key.sequence < y.key.sequence <= SmallestSnapshot(s.db)
      ensures y.key.sequence == z.key.sequence
    {
      if y.key.sequence < z.key.sequence {
        BelowSeen(s, step, merged, s', z, y);
      }
    }
    SameSequence(s);
  }

  /** A sequence number names one stored entry. */
  lemma SameSequence(s: State)
    requires Sound(s)
    ensures forall x, y :: x in Stored(s.db) && y in Stored(s.db) && x.key.sequence == y.key.sequence ==> x == y
  {
    StoredFromHist(s);
    assert forall x :: x in Stored(s.db) ==> FromHist(s.hist, x);
  }

  /** Over a compaction promised reads stay right if and only if it is clean for them. */
  lemma CompactPromisedIff(s: State, r: Reach, step: Step, s': State)
    requires PromisedInv(s, r) && step.Compact? && Next(s, step, s')
    ensures |s'.db.levels| == NUM_LEVELS
    ensures CleanPromised(s, r, step) ==> PromisedInv(s', r)
    ensures PromisedRight(s', r) ==> CleanPromised(s, r, step)
  {
    hide CompactionResult, Next, LeftBehind, Sees, OrderedAt, DeletionsSafe, Uncovers, Others, Inverted, AnswersAt;
    hide GetExactAt, ShownPromised, Sound, DroppedAtBase;
    var merged := TheMerge(s, step, s');
    NextKeepsSound(s, step, s');
    SoundTables(s');
    StepLevels(s, step, merged, s');
    CompactFrame(s, step, merged, s');
    CompactPromise(s, r, step, merged, s');
    if CleanPromised(s, r, step) {
      CompactKeepsPromised(s, r, step, merged, s');
    } else if PromisedRight(s', r) {
      RightIsOrdered(s', r);
      if !DeletionsSafe(s.db, step.from, step.in0, step.in1) {
        UnsafeDeletion(s, r, step, merged, s');
      } else if !UncoversInOrder(s.db, step.from, step.in0, step.in1) {
        var z, e, x :| Uncovers(s.db, step.from, step.in0, step.in1, z, x)
            && e in Others(s.db.levels, step.from, step.in0, step.in1) && Inverted(s.db.levels, e, x);
        UncoveredInversion(s, step, merged, s', z, e, x);
      } else {
        var at: nat, e, x :| Promised(s', r, at) && LeftBehind(s.db.levels, step.from, step.in0, e, x)
            && Sees(s.db, at, x) && !DroppedAtBase(s.db, step.from, x);
        LeftIsInverted(s, step, merged, s', at, e, x);
      }
    }
  }

  lemma TheMerge(s: State, step: Step, s': State) returns (merged: seq<Entry>)
    requires Sound(s) && step.Compact? && Next(s, step, s')
    ensures IsCompactStep(s, step, merged, s')
  {
    hide CompactionResult;
    merged :| CompactionResult(s.db, step.from, step.in0, step.in1, merged, step.outs);
  }

  lemma SoundTables(s: State)
    requires Sound(s)
    ensures BaseInv(s) && |s.db.levels| == NUM_LEVELS
  {
  }

  // ----- moves

  lemma MoveFrame(s: State, r: Reach, from: nat, f: File, s': State)
    requires Sound(s) && Next(s, TrivialMove(from, f), s')
    ensures Sound(s') && Stored(s'.db) == Stored(s.db) && s'.hist == s.hist && |s.db.levels| == NUM_LEVELS
    ensures forall at: nat :: Promised(s', r, at) <==> Promised(s, r, at)
    ensures from + 1 < NUM_LEVELS && At(s.db.levels, from, f) && Replaced(s.db.levels, from, [f], [], [f], s'.db.levels)
  {
    NextKeepsSound(s, TrivialMove(from, f), s');
    assert [f] + [] == [f] && f in [f];
    ReplacedEntries(s.db.levels, from, [f], [], [f], s'.db.levels);
  }

  lemma MoveInversions(s: State, from: nat, f: File, s': State, e: Entry, x: Entry)
    requires Sound(s) && Next(s, TrivialMove(from, f), s')
    ensures from + 1 < NUM_LEVELS == |s.db.levels|
    ensures Inverted(s'.db.levels, e, x) ==> Inverted(s.db.levels, e, x) || LeftBehind(s.db.levels, from, [f], e, x)
    ensures LeftBehind(s.db.levels, from, [f], e, x) ==> Inverted(s'.db.levels, e, x)
  {
    hide Sound, Next, Stored;
    MoveFrame(s, Live, from, f, s');
    if Inverted(s'.db.levels, e, x) {
      assert OutsFrom([f], [f] + []) by {
        assert f in [f] + [];
      }
      InvertedOrigin(s.db.levels, from, [f], [], [f], s'.db.levels, e, x);
    }
    if LeftBehind(s.db.levels, from, [f], e, x) {
      var g, h :| g in s.db.levels[from] && g !in [f] && h in [f] && OlderIn(g, e, h, x);
      assert Above(s'.db.levels, from, g, from + 1, f);
    }
  }

  /** Over a move promised reads stay right if and only if it is clean for them. */
  lemma MovePromisedIff(s: State, r: Reach, from: nat, f: File, s': State)
    requires PromisedInv(s, r) && Next(s, TrivialMove(from, f), s')
    ensures |s'.db.levels| == NUM_LEVELS
    ensures CleanPromised(s, r, TrivialMove(from, f)) ==> PromisedInv(s', r)
    ensures PromisedRight(s', r) ==> CleanPromised(s, r, TrivialMove(from, f))
  {
    hide Sound, Next, Stored, Inverted, LeftBehind, GetExactAt, AnswersAt, Shown;
    MoveFrame(s, r, from, f, s');
    SoundTables(s');
    RightIsOrdered(s', r);
    forall at: nat, e, x | Promised(s, r, at)
      ensures Inverted(s'.db.levels, e, x) && x.key.sequence <= at ==> Sees(s.db, at, x) || Masked(Stored(s.db), x, at)
      ensures LeftBehind(s.db.levels, from, [f], e, x) ==> Inverted(s'.db.levels, e, x)
      ensures Inverted(s'.db.levels, e, x) ==> Inverted(s.db.levels, e, x) || LeftBehind(s.db.levels, from, [f], e, x)
    {
      MoveInversions(s, from, f, s', e, x);
      if Inverted(s'.db.levels, e, x) {
        InversionStored(s', e, x);
      }
    }
  }

  // ----- runs

  /** Promised reads stay right in a step if and only if the step is clean for them. */
  lemma NextPromisedIff(s: State, r: Reach, step: Step, s': State)
    requires PromisedInv(s, r) && Next(s, step, s')
    ensures |s'.db.levels| == NUM_LEVELS
    ensures PromisedInv(s', r) <==> CleanPromised(s, r, step)
    ensures PromisedRight(s', r) <==> CleanPromised(s, r, step)
  {
    hide PromisedInv, PromisedRight, Next;
    match step {
      case Write(es) => WriteKeepsPromised(s, r, es, s');
      case SwitchMemTable => SameTablesKeepPromised(s, r, step, s');
      case Flush(level, size) => FlushKeepsPromised(s, r, level, size, s');
      case TrivialMove(from, f) => MovePromisedIff(s, r, from, f, s');
      case Compact(_, _, _, _, _, _) => CompactPromisedIff(s, r, step, s');
      case GetSnapshot => SameTablesKeepPromised(s, r, step, s');
      case ReleaseSnapshot(_) => SameTablesKeepPromised(s, r, step, s');
      case Reopen(files, first) => ReopenKeepsPromised(s, r, files, first, s');
    }
    if PromisedInv(s', r) {
      InvIsRight(s', r);
    }
  }

  lemma InitPromised(r: Reach)
    ensures PromisedInv(INIT, r)
  {
    InitInv();
    assert forall l, f :: !At(INIT.db.levels, l, f);
  }

  /** Over every run: the reads at the last sequence and at the live snapshots are right
      in all states up to the `i`th if and only if all steps up to there are clean for them. */
  lemma {:induction false} RunsPromisedIff(states: seq<State>, r: Reach, steps: seq<Step>, i: nat)
    requires IsRun(states, steps) && i < |states|
    ensures forall j :: 0 <= j <= i ==> |states[j].db.levels| == NUM_LEVELS
    ensures (forall j :: 0 <= j <= i ==> PromisedRight(states[j], r))
            <==> (forall j :: 0 <= j < i ==> CleanPromised(states[j], r, steps[j]))
    ensures (forall j :: 0 <= j < i ==> CleanPromised(states[j], r, steps[j])) ==> PromisedInv(states[i], r)
  {
    hide PromisedInv, PromisedRight, Next, CleanPromised;
    if i == 0 {
      InitPromised(r);
      InvIsRight(INIT, r);
    } else {
      RunsPromisedIff(states, r, steps, i - 1);
      LevelsStayDisjoint(states, steps, i);
      if forall j :: 0 <= j < i - 1 ==> CleanPromised(states[j], r, steps[j]) {
        NextPromisedIff(states[i - 1], r, steps[i - 1], states[i]);
      }
    }
  }

  /** Where promised reads are right, Get answers there like the plain map. */
  lemma PromisedGet(s: State, r: Reach, u: UserKey, at: nat)
    requires |s.db.levels| == NUM_LEVELS && PromisedRight(s, r) && Promised(s, r, at)
    ensures at <= |s.hist| && AnswerOf(DbGet(s.db, u, at)) == Lookup(Replay(s.hist[..at]), u)
  {
    hide Reads, DbGet;
  }
}
