/** The layered lookups (DBImpl::Get, Version::Get), the invariant of the tree that they
    need, and that under it Get answers like the plain map of the writes. */
module LsmReads {
  import opened Format
  import opened Version
  import opened Lsm
  import opened LsmLevels

  // ----- lookups, layer by layer (DBImpl::Get, Version::Get)

  /** FindFile followed by a read of the one file that may hold the key. */
  function LevelGet(files: seq<File>, u: UserKey, s: nat): Option<Entry> {
    var i := FirstNotBefore(files, SeekKey(u, s));
    if i < |files| && files[i].smallest.user <= u then Hit(files[i].entries, u, s) else None
  }

  function Covering(files: seq<File>, u: UserKey): (r: seq<File>)
    ensures forall f :: f in r <==> f in files && f.smallest.user <= u <= f.largest.user
  {
    if files == [] then []
    else
      var rest := Covering(files[..|files| - 1], u);
      var f := files[|files| - 1];
      if f.smallest.user <= u <= f.largest.user then rest + [f] else rest
  }

  /** Newest first, by file number. */
  function InsertNewest(files: seq<File>, f: File): (r: seq<File>)
    ensures multiset(r) == multiset(files) + multiset{f}
  {
    if files == [] || f.number > files[0].number then [f] + files
    else
      assert files == [files[0]] + files[1..];
      [files[0]] + InsertNewest(files[1..], f)
  }

  function SortNewest(files: seq<File>): (r: seq<File>)
    ensures multiset(r) == multiset(files)
  {
    if files == [] then []
    else
      assert files == files[..|files| - 1] + [files[|files| - 1]];
      InsertNewest(SortNewest(files[..|files| - 1]), files[|files| - 1])
  }

  function FirstHit(files: seq<File>, u: UserKey, s: nat): Option<Entry> {
    if files == [] then None
    else
      var h := Hit(files[0].entries, u, s);
      if h.Some? then h else FirstHit(files[1..], u, s)
  }

  function DeepGet(levels: seq<seq<File>>, l: nat, u: UserKey, s: nat): Option<Entry>
    requires l <= |levels|
    decreases |levels| - l
  {
    if l == |levels| then None
    else
      var h := LevelGet(levels[l], u, s);
      if h.Some? then h else DeepGet(levels, l + 1, u, s)
  }

  function VersionGet(levels: seq<seq<File>>, u: UserKey, s: nat): Option<Entry>
    requires |levels| == NUM_LEVELS
  {
    var h := FirstHit(SortNewest(Covering(levels[0], u)), u, s);
    if h.Some? then h else DeepGet(levels, 1, u, s)
  }

  function DbGet(db: Db, u: UserKey, s: nat): Option<Entry>
    requires |db.levels| == NUM_LEVELS
  {
    var m := Hit(db.mem, u, s);
    if m.Some? then m
    else
      var i := Hit(ImmEntries(db), u, s);
      if i.Some? then i else VersionGet(db.levels, u, s)
  }

  // ----- the ordering invariant

  ghost predicate Newer(f: File, g: File) {
    forall e, x :: e in f.entries && x in g.entries && e.key.user == x.key.user ==> e.key.sequence > x.key.sequence
  }

  ghost predicate LevelsOrdered(levels: seq<seq<File>>) {
    && |levels| == NUM_LEVELS
    && (forall l, m, f, g :: At(levels, l, f) && At(levels, m, g) && l < m ==> Newer(f, g))
    && (forall f, g :: f in levels[0] && g in levels[0] && f.number > g.number ==> Newer(f, g))
  }

  /** What the key shows at the sequence is no value. */
  ghost predicate NoValueNewest(stored: set<Entry>, u: UserKey, s: nat) {
    forall e :: IsNewest(stored, u, s, e) ==> e.key.kind.Deletion?
  }

  /** The last write is stored, or it is a deletion and nothing stored shows a value. */
  ghost predicate Shown(hist: seq<Entry>, stored: set<Entry>, u: UserKey, s: nat)
    requires s <= |hist|
  {
    var i := LastWrite(hist, u, s);
    i >= 0 ==> hist[i] in stored || (hist[i].key.kind.Deletion? && NoValueNewest(stored, u, s))
  }

  /** Every key is shown right at every sequence from `floor` on. */
  ghost predicate Covered(hist: seq<Entry>, stored: set<Entry>, floor: nat) {
    forall u, s :: floor <= s <= |hist| ==> Shown(hist, stored, u, s)
  }

  ghost predicate SnapshotsOk(db: Db, floor: nat) {
    && floor <= db.lastSequence
    && (forall i :: 0 <= i < |db.snapshots| ==> floor <= db.snapshots[i] <= db.lastSequence)
    && (forall i, j :: 0 <= i < j < |db.snapshots| ==> db.snapshots[i] <= db.snapshots[j])
  }

  /** What every state of every run keeps, whatever its steps. */
  ghost predicate Sound(s: State) {
    BaseInv(s) && SnapshotsOk(s.db, s.floor)
  }

  ghost predicate Inv(s: State) {
    match s
    case State(db, hist, floor) =>
      && Sound(s)
      && LevelsOrdered(db.levels)
      && Covered(hist, Stored(db), floor)
  }

  // ----- Get returns the newest entry

  /** A layer above: its hits win, its misses defer. */
  lemma Layer(newer: set<Entry>, older: set<Entry>, u: UserKey, s: nat)
    requires forall x, y :: x in newer && y in older && x.key.user == u && y.key.user == u ==>
              x.key.sequence > y.key.sequence
    ensures forall e :: IsNewest(newer, u, s, e) ==> IsNewest(newer + older, u, s, e)
    ensures NoneVisible(newer, u, s) ==> forall e :: IsNewest(older, u, s, e) ==> IsNewest(newer + older, u, s, e)
    ensures NoneVisible(newer, u, s) && NoneVisible(older, u, s) ==> NoneVisible(newer + older, u, s)
  {
  }

  /** `r` is what a search of `es` should yield. */
  ghost predicate Reads(es: set<Entry>, u: UserKey, s: nat, r: Option<Entry>) {
    match r
    case Some(e) => IsNewest(es, u, s, e)
    case None => NoneVisible(es, u, s)
  }

  ghost function FileEntries(files: seq<File>): set<Entry> {
    set f, e | f in files && e in f.entries :: e
  }

  /** The file that the binary search picks holds the newest visible entry of
      the key in the whole level, even if the key runs on into later files. */
  lemma PickedFileHasNewest(files: seq<File>, u: UserKey, s: nat, j: nat, x: Entry)
    requires (forall f :: f in files ==> FileOk(f)) && Disjoint(files)
    requires j < |files| && x in files[j].entries && x.key.user == u && x.key.sequence <= s
    ensures var i := FirstNotBefore(files, SeekKey(u, s));
            && i <= j && files[i].smallest.user <= u
            && (i < j ==> exists e :: e in files[i].entries && e.key.user == u && x.key.sequence <= e.key.sequence <= s)
  {
    var k := SeekKey(u, s);
    var i := FirstNotBefore(files, k);
    var f := files[j];
    assert FileOk(f);
    InRange(f, x);
    assert i <= j;
    assert FileOk(files[i]);
    if i < j {
      assert Before(files[i], f);
      var last := files[i].entries[|files[i].entries| - 1];
      assert last in files[i].entries && last.key == files[i].largest;
      BetweenSeekAndKey(last.key, u, s, f.smallest, x.key);
    }
  }

  /** An internal key at or after the seek key and before another key of the same
      user key is a visible, newer entry of that user key. */
  lemma BetweenSeekAndKey(k: InternalKey, u: UserKey, s: nat, smallest: InternalKey, x: InternalKey)
    requires !Less(k, SeekKey(u, s)) && Less(k, smallest) && !Less(x, smallest) && x.user == u
    ensures k.user == u && x.sequence <= k.sequence <= s
  {
  }

  lemma LevelGetReads(files: seq<File>, u: UserKey, s: nat)
    requires (forall f :: f in files ==> FileOk(f)) && Disjoint(files)
    ensures Reads(FileEntries(files), u, s, LevelGet(files, u, s))
  {
    var i := FirstNotBefore(files, SeekKey(u, s));
    if i < |files| {
      assert FileOk(files[i]);
      HitIsNewest(files[i].entries, u, s);
    }
    forall x | x in FileEntries(files) && x.key.user == u && x.key.sequence <= s
      ensures i < |files| && files[i].smallest.user <= u
      ensures exists e :: e in files[i].entries && e.key.user == u && x.key.sequence <= e.key.sequence <= s
    {
      var f :| f in files && x in f.entries;
      var j :| 0 <= j < |files| && files[j] == f;
      PickedFileHasNewest(files, u, s, j, x);
    }
  }

  ghost predicate NewestFirst(files: seq<File>) {
    forall i, j :: 0 <= i < j < |files| ==> files[i].number >= files[j].number
  }

  lemma {:induction false} InsertNewestSorted(files: seq<File>, f: File)
    requires NewestFirst(files)
    ensures NewestFirst(InsertNewest(files, f))
  {
    if files != [] && !(f.number > files[0].number) {
      InsertNewestSorted(files[1..], f);
      var rest := InsertNewest(files[1..], f);
      forall i | 0 <= i < |rest|
        ensures rest[i].number <= files[0].number
      {
        assert rest[i] in multiset(rest);
        assert rest[i] == f || rest[i] in files[1..];
      }
      assert InsertNewest(files, f) == [files[0]] + rest;
    }
  }

  lemma {:induction false} SortNewestSorted(files: seq<File>)
    ensures NewestFirst(SortNewest(files))
    ensures forall f :: f in SortNewest(files) <==> f in files
  {
    if files != [] {
      SortNewestSorted(files[..|files| - 1]);
      InsertNewestSorted(SortNewest(files[..|files| - 1]), files[|files| - 1]);
    }
    forall f
      ensures f in SortNewest(files) <==> f in files
    {
      assert f in SortNewest(files) <==> f in multiset(SortNewest(files));
    }
  }

  /** `files` from the newest on; equal neighbours are allowed. */
  ghost predicate Descending(files: seq<File>) {
    && (forall f :: f in files ==> FileOk(f))
    && (forall i, j :: 0 <= i < j < |files| ==> files[i] == files[j] || Newer(files[i], files[j]))
  }

  lemma HeadAboveRest(files: seq<File>, u: UserKey, s: nat)
    requires Descending(files) && files != []
    ensures var head, below := Elems(files[0].entries), FileEntries(files[1..]) - Elems(files[0].entries);
            && FileEntries(files) == head + below
            && forall x, y :: x in head && y in below && x.key.user == y.key.user ==> x.key.sequence > y.key.sequence
  {
    var f, rest := files[0], files[1..];
    var head, below := Elems(f.entries), FileEntries(rest) - Elems(f.entries);
    assert files == [f] + rest;
    forall x, y | x in head && y in below && x.key.user == y.key.user
      ensures x.key.sequence > y.key.sequence
    {
      var g :| g in rest && y in g.entries;
      var j :| 0 <= j < |rest| && rest[j] == g;
      assert files[j + 1] == g;
      assert Newer(f, g);
    }
  }

  lemma {:induction false} FirstHitReads(files: seq<File>, u: UserKey, s: nat)
    requires Descending(files)
    ensures Reads(FileEntries(files), u, s, FirstHit(files, u, s))
  {
    if files != [] {
      var f, rest := files[0], files[1..];
      var head, below := Elems(f.entries), FileEntries(rest) - Elems(f.entries);
      FirstHitReads(rest, u, s);
      assert FileOk(f);
      HitIsNewest(f.entries, u, s);
      HeadAboveRest(files, u, s);
      Layer(head, below, u, s);
      if NoneVisible(head, u, s) {
        ReadsBelow(head, FileEntries(rest), u, s, FirstHit(rest, u, s));
      }
    }
  }

  lemma ReadsBelow(head: set<Entry>, rest: set<Entry>, u: UserKey, s: nat, r: Option<Entry>)
    requires NoneVisible(head, u, s) && Reads(rest, u, s, r)
    ensures Reads(rest - head, u, s, r)
  {
  }

  lemma LevelZeroReads(levels: seq<seq<File>>, nextFile: nat, u: UserKey, s: nat)
    requires LevelsOk(levels, nextFile) && LevelsOrdered(levels)
    ensures Reads(FileEntries(levels[0]), u, s, FirstHit(SortNewest(Covering(levels[0], u)), u, s))
  {
    hide Reads, FirstHit, SortNewest, Covering;
    var sorted := SortNewest(Covering(levels[0], u));
    ZeroDescends(levels, nextFile, u);
    FirstHitReads(sorted, u, s);
    CoveringHasKey(levels, nextFile, u);
    ReadsSameKey(FileEntries(sorted), FileEntries(levels[0]), u, s, FirstHit(sorted, u, s));
  }

  lemma ZeroDescends(levels: seq<seq<File>>, nextFile: nat, u: UserKey)
    requires LevelsOk(levels, nextFile) && LevelsOrdered(levels)
    ensures Descending(SortNewest(Covering(levels[0], u)))
  {
    hide Newer, SortNewest;
    var sorted := SortNewest(Covering(levels[0], u));
    SortNewestSorted(Covering(levels[0], u));
    forall f | f in sorted
      ensures FileOk(f) && f in levels[0]
    {
      assert At(levels, 0, f);
    }
    forall i, j | 0 <= i < j < |sorted|
      ensures sorted[i] == sorted[j] || Newer(sorted[i], sorted[j])
    {
      assert At(levels, 0, sorted[i]) && At(levels, 0, sorted[j]);
    }
  }

  lemma CoveringHasKey(levels: seq<seq<File>>, nextFile: nat, u: UserKey)
    requires LevelsOk(levels, nextFile)
    ensures var part := FileEntries(SortNewest(Covering(levels[0], u)));
            part <= FileEntries(levels[0]) && forall x :: x in FileEntries(levels[0]) && x.key.user == u ==> x in part
  {
    hide SortNewest;
    SortNewestSorted(Covering(levels[0], u));
    forall x | x in FileEntries(levels[0]) && x.key.user == u
      ensures x in FileEntries(SortNewest(Covering(levels[0], u)))
    {
      var f :| f in levels[0] && x in f.entries;
      assert At(levels, 0, f);
      InRange(f, x);
      assert f in SortNewest(Covering(levels[0], u));
    }
  }

  lemma ReadsSameKey(part: set<Entry>, all: set<Entry>, u: UserKey, s: nat, r: Option<Entry>)
    requires part <= all && (forall x :: x in all && x.key.user == u ==> x in part)
    requires Reads(part, u, s, r)
    ensures Reads(all, u, s, r)
  {
  }

  ghost function EntriesFrom(levels: seq<seq<File>>, l: nat): set<Entry> {
    set m, f, e | l <= m < |levels| && f in levels[m] && e in f.entries :: e
  }

  lemma LevelAboveRest(levels: seq<seq<File>>, nextFile: nat, l: nat, u: UserKey, s: nat)
    requires LevelsOk(levels, nextFile) && LevelsOrdered(levels) && l < NUM_LEVELS
    ensures EntriesFrom(levels, l) == FileEntries(levels[l]) + EntriesFrom(levels, l + 1)
    ensures forall r :: Reads(FileEntries(levels[l]), u, s, r) && r.Some? ==> Reads(EntriesFrom(levels, l), u, s, r)
    ensures NoneVisible(FileEntries(levels[l]), u, s) ==>
              forall r :: Reads(EntriesFrom(levels, l + 1), u, s, r) ==> Reads(EntriesFrom(levels, l), u, s, r)
  {
    forall x, y | x in FileEntries(levels[l]) && y in EntriesFrom(levels, l + 1) && x.key.user == y.key.user
      ensures x.key.sequence > y.key.sequence
    {
      var f :| f in levels[l] && x in f.entries;
      var m, g :| l + 1 <= m < |levels| && g in levels[m] && y in g.entries;
      assert At(levels, l, f) && At(levels, m, g);
    }
    Layer(FileEntries(levels[l]), EntriesFrom(levels, l + 1), u, s);
  }

  lemma {:induction false} DeepGetReads(levels: seq<seq<File>>, nextFile: nat, l: nat, u: UserKey, s: nat)
    requires LevelsOk(levels, nextFile) && LevelsOrdered(levels) && 1 <= l <= NUM_LEVELS
    ensures Reads(EntriesFrom(levels, l), u, s, DeepGet(levels, l, u, s))
    decreases NUM_LEVELS - l
  {
    if l < NUM_LEVELS {
      DeepGetReads(levels, nextFile, l + 1, u, s);
      assert forall f :: f in levels[l] ==> At(levels, l, f);
      LevelGetReads(levels[l], u, s);
      LevelAboveRest(levels, nextFile, l, u, s);
    }
  }

  lemma VersionGetReads(levels: seq<seq<File>>, nextFile: nat, u: UserKey, s: nat)
    requires LevelsOk(levels, nextFile) && LevelsOrdered(levels)
    ensures Reads(TableEntries(levels), u, s, VersionGet(levels, u, s))
  {
    LevelZeroReads(levels, nextFile, u, s);
    DeepGetReads(levels, nextFile, 1, u, s);
    LevelAboveRest(levels, nextFile, 0, u, s);
    assert EntriesFrom(levels, 0) == TableEntries(levels);
  }

  lemma DbGetReads(s: State, u: UserKey, at: nat)
    requires BaseInv(s) && LevelsOrdered(s.db.levels)
    ensures Reads(Stored(s.db), u, at, DbGet(s.db, u, at))
  {
    var mem, imm, tables := Elems(s.db.mem), Elems(ImmEntries(s.db)), TableEntries(s.db.levels);
    HitIsNewest(s.db.mem, u, at);
    HitIsNewest(ImmEntries(s.db), u, at);
    VersionGetReads(s.db.levels, s.db.nextFile, u, at);
    Layer(imm, tables, u, at);
    Layer(mem, imm + tables, u, at);
    UnionShuffle(mem, imm, tables);
  }

  /** Whatever finds the newest entry of a key that is shown right answers like a plain
      map. */
  lemma ShownReads(hist: seq<Entry>, stored: set<Entry>, u: UserKey, at: nat, r: Option<Entry>)
    requires HistOk(hist) && at <= |hist| && Shown(hist, stored, u, at)
    requires (forall e :: e in stored ==> FromHist(hist, e)) && Reads(stored, u, at, r)
    ensures AnswerOf(r) == Lookup(Replay(hist[..at]), u)
  {
    ReplayIsLastWrite(hist, u, at);
    if r.Some? {
      assert FromHist(hist, r.value);
      assert hist[r.value.key.sequence - 1].key.user == u;
    }
  }

  lemma CoveredReads(hist: seq<Entry>, stored: set<Entry>, floor: nat, u: UserKey, at: nat, r: Option<Entry>)
    requires HistOk(hist) && Covered(hist, stored, floor) && floor <= at <= |hist|
    requires (forall e :: e in stored ==> FromHist(hist, e)) && Reads(stored, u, at, r)
    ensures AnswerOf(r) == Lookup(Replay(hist[..at]), u)
  {
    hide Shown, Reads, FromHist;
    ShownReads(hist, stored, u, at, r);
  }

  /** Get at any promised snapshot answers what a plain map that saw exactly the
      writes up to that snapshot would answer. */
  lemma GetIsPlainMap(s: State, u: UserKey, at: nat)
    requires Inv(s) && s.floor <= at <= s.db.lastSequence
    ensures AnswerOf(DbGet(s.db, u, at)) == Lookup(Replay(s.hist[..at]), u)
  {
    DbGetReads(s, u, at);
    CoveredReads(s.hist, Stored(s.db), s.floor, u, at, DbGet(s.db, u, at));
  }
}
