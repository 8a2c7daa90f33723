/** Get stops at the first hit.  It returns the newest stored version of every key at
    every sequence if and only if shallower files hold the newer versions. */
module LsmExact {
  import opened Format
  import opened Version
  import opened Lsm
  import opened LsmLevels
  import opened LsmReads

  ghost predicate GetExact(db: Db)
    requires |db.levels| == NUM_LEVELS
  {
    forall u, at: nat :: Reads(Stored(db), u, at, DbGet(db, u, at))
  }

  /** Get searches file `f` of level `l` before file `g` of level `m`. */
  ghost predicate Above(levels: seq<seq<File>>, l: int, f: File, m: int, g: File) {
    At(levels, l, f) && At(levels, m, g) && (l < m || (l == m == 0 && f.number > g.number))
  }

  lemma {:induction false} FirstHitFrom(files: seq<File>, u: UserKey, s: nat, k: nat) returns (i: nat)
    requires k < |files| && Hit(files[k].entries, u, s).Some?
    ensures i <= k && FirstHit(files, u, s).Some? && FirstHit(files, u, s) == Hit(files[i].entries, u, s)
  {
    if Hit(files[0].entries, u, s).Some? {
      i := 0;
    } else {
      i := FirstHitFrom(files[1..], u, s, k - 1);
      i := i + 1;
    }
  }

  lemma {:induction false} DeepGetFrom(levels: seq<seq<File>>, j: nat, l: nat, u: UserKey, s: nat) returns (i: nat)
    requires j <= l < |levels| && LevelGet(levels[l], u, s).Some?
    ensures j <= i <= l && DeepGet(levels, j, u, s).Some? && DeepGet(levels, j, u, s) == LevelGet(levels[i], u, s)
    decreases l - j
  {
    hide LevelGet;
    if LevelGet(levels[j], u, s).Some? {
      i := j;
    } else {
      i := DeepGetFrom(levels, j + 1, l, u, s);
    }
  }

  /** A hit is an entry of what was searched. */
  lemma HitMember(es: seq<Entry>, u: UserKey, s: nat)
    requires Hit(es, u, s).Some?
    ensures Hit(es, u, s).value in es
  {
  }

  lemma VisibleHit(f: File, e: Entry, s: nat)
    requires FileOk(f) && e in f.entries && e.key.sequence <= s
    ensures Hit(f.entries, e.key.user, s).Some?
  {
    hide Hit;
    HitIsNewest(f.entries, e.key.user, s);
    assert e in Elems(f.entries);
  }

  lemma LevelGetMember(files: seq<File>, u: UserKey, s: nat) returns (f: File)
    requires LevelGet(files, u, s).Some?
    ensures f in files && LevelGet(files, u, s).value in f.entries
  {
    hide Hit;
    f := files[FirstNotBefore(files, SeekKey(u, s))];
    HitMember(f.entries, u, s);
  }

  lemma VisibleLevelGet(levels: seq<seq<File>>, nextFile: nat, l: nat, f: File, e: Entry, s: nat)
    requires LevelsOk(levels, nextFile) && 1 <= l && At(levels, l, f) && e in f.entries && e.key.sequence <= s
    ensures LevelGet(levels[l], e.key.user, s).Some?
  {
    hide LevelGet;
    assert forall g :: g in levels[l] ==> At(levels, l, g);
    LevelGetReads(levels[l], e.key.user, s);
    assert e in FileEntries(levels[l]);
  }

  /** Level 0 answers from a file at or above `f`. */
  lemma ZeroAnswers(levels: seq<seq<File>>, nextFile: nat, f: File, e: Entry, s: nat) returns (g: File)
    requires LevelsOk(levels, nextFile) && At(levels, 0, f) && e in f.entries && e.key.sequence <= s
    ensures g in levels[0] && g.number >= f.number
    ensures var r := VersionGet(levels, e.key.user, s); r.Some? && r.value in g.entries
  {
    hide Hit, FirstHit, SortNewest;
    var u := e.key.user;
    var sorted := SortNewest(Covering(levels[0], u));
    InRange(f, e);
    SortNewestSorted(Covering(levels[0], u));
    assert f in sorted;
    var k :| 0 <= k < |sorted| && sorted[k] == f;
    VisibleHit(f, e, s);
    var i := FirstHitFrom(sorted, u, s, k);
    g := sorted[i];
    assert g in sorted;
    HitMember(g.entries, u, s);
  }

  lemma ZeroMember(levels: seq<seq<File>>, u: UserKey, s: nat) returns (g: File)
    requires |levels| == NUM_LEVELS && FirstHit(SortNewest(Covering(levels[0], u)), u, s).Some?
    ensures g in levels[0] && FirstHit(SortNewest(Covering(levels[0], u)), u, s).value in g.entries
  {
    hide Hit;
    var sorted := SortNewest(Covering(levels[0], u));
    SortNewestSorted(Covering(levels[0], u));
    g := FirstHitMember(sorted, u, s);
  }

  lemma {:induction false} FirstHitMember(files: seq<File>, u: UserKey, s: nat) returns (g: File)
    requires FirstHit(files, u, s).Some?
    ensures g in files && FirstHit(files, u, s).value in g.entries
  {
    hide Hit;
    if Hit(files[0].entries, u, s).Some? {
      g := files[0];
      HitMember(g.entries, u, s);
    } else {
      g := FirstHitMember(files[1..], u, s);
    }
  }

  /** If `f` has a visible entry, the version answers from a file not below `f`. */
  lemma AnswersFromAbove(levels: seq<seq<File>>, nextFile: nat, l: nat, f: File, e: Entry, s: nat)
      returns (i: nat, g: File)
    requires LevelsOk(levels, nextFile) && At(levels, l, f) && e in f.entries && e.key.sequence <= s
    ensures i <= l && At(levels, i, g) && (i == l == 0 ==> g.number >= f.number)
    ensures var r := VersionGet(levels, e.key.user, s); r.Some? && r.value in g.entries
  {
    hide FirstHit, SortNewest, LevelGet, DeepGet;
    var u := e.key.user;
    i := 0;
    if l == 0 {
      g := ZeroAnswers(levels, nextFile, f, e, s);
    } else if FirstHit(SortNewest(Covering(levels[0], u)), u, s).Some? {
      g := ZeroMember(levels, u, s);
    } else {
      VisibleLevelGet(levels, nextFile, l, f, e, s);
      i := DeepGetFrom(levels, 1, l, u, s);
      g := LevelGetMember(levels[i], u, s);
    }
  }

  /** At the sequence of a table entry the memtables hold nothing visible. */
  lemma MemtablesSilent(s: State, x: Entry)
    requires BaseInv(s) && x in TableEntries(s.db.levels)
    ensures DbGet(s.db, x.key.user, x.key.sequence) == VersionGet(s.db.levels, x.key.user, x.key.sequence)
  {
    hide Hit, VersionGet;
    HitIsNewest(s.db.mem, x.key.user, x.key.sequence);
    HitIsNewest(ImmEntries(s.db), x.key.user, x.key.sequence);
  }

  lemma Elsewhere(levels: seq<seq<File>>, i: nat, h: File, y: Entry, m: nat, g: File, x: Entry)
    requires EntriesOnce(levels) && At(levels, i, h) && y in h.entries && At(levels, m, g) && x in g.entries
    requires i != m || h != g
    ensures y != x
  {
  }

  /** An older version above a newer one is what Get returns at the newer one's
      sequence. */
  lemma InversionIsRead(s: State, l: nat, f: File, m: nat, g: File, e: Entry, x: Entry)
    requires BaseInv(s) && Above(s.db.levels, l, f, m, g)
    requires e in f.entries && x in g.entries && e.key.user == x.key.user && e.key.sequence <= x.key.sequence
    ensures !Reads(Stored(s.db), x.key.user, x.key.sequence, DbGet(s.db, x.key.user, x.key.sequence))
  {
    hide DbGet, VersionGet;
    var levels, at := s.db.levels, x.key.sequence;
    assert e in TableEntries(levels) && x in TableEntries(levels);
    assert e in Stored(s.db) && x in Stored(s.db);
    MemtablesSilent(s, x);
    var i, h := AnswersFromAbove(levels, s.db.nextFile, l, f, e, at);
    var y := VersionGet(levels, x.key.user, at).value;
    Elsewhere(levels, i, h, y, m, g, x);
    assert At(levels, i, h) && y in TableEntries(levels) && y in Stored(s.db);
    assert FromHist(s.hist, x) && FromHist(s.hist, y);
  }

  /** Get is exact if and only if no older version lies above a newer one. */
  lemma GetExactIff(s: State)
    requires BaseInv(s)
    ensures GetExact(s.db) <==> LevelsOrdered(s.db.levels)
  {
    hide DbGet, Reads, Stored;
    if LevelsOrdered(s.db.levels) {
      forall u, at: nat
        ensures Reads(Stored(s.db), u, at, DbGet(s.db, u, at))
      {
        DbGetReads(s, u, at);
      }
    } else {
      var l, f, m, g := NotOrdered(s.db.levels);
      var e, x :| e in f.entries && x in g.entries && e.key.user == x.key.user && e.key.sequence <= x.key.sequence;
      InversionIsRead(s, l, f, m, g, e, x);
    }
  }

  lemma NotOrdered(levels: seq<seq<File>>) returns (l: nat, f: File, m: nat, g: File)
    requires |levels| == NUM_LEVELS && !LevelsOrdered(levels)
    ensures Above(levels, l, f, m, g) && !Newer(f, g)
  {
    hide Newer;
    if l', m', f', g' :| At(levels, l', f') && At(levels, m', g') && l' < m' && !Newer(f', g') {
      l, f, m, g := l', f', m', g';
    } else {
      f, g :| f in levels[0] && g in levels[0] && f.number > g.number && !Newer(f, g);
      l, m := 0, 0;
    }
  }
}
