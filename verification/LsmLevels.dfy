/** What every run keeps, snapshots or not: levels above 0 stay sorted and
    pairwise disjoint by internal key, and every stored entry is a real write
    stored once. */
module LsmLevels {
  import opened Format
  import opened Version
  import opened Lsm

  // ----- outputs of a compaction

  lemma {:induction false} KeptFromMerged(merged: seq<Entry>, n: nat, snapshot: nat, levels: seq<seq<File>>, from: nat)
    requires n <= |merged| && |levels| == NUM_LEVELS && Sorted(merged)
    ensures var kept := Kept(merged, n, snapshot, levels, from);
            && Sorted(kept)
            && (forall e :: e in kept <==> exists i ::
                                            0 <= i < n && merged[i] == e && !Dropped(merged, i, snapshot, levels, from))
  {
    if n > 0 {
      KeptFromMerged(merged, n - 1, snapshot, levels, from);
      var rest := Kept(merged, n - 1, snapshot, levels, from);
      var last := merged[n - 1];
      forall e | e in rest
        ensures Less(e.key, last.key)
      {
        var i :| 0 <= i < n - 1 && merged[i] == e;
        assert Less(merged[i].key, merged[n - 1].key);
      }
      var kept := Kept(merged, n, snapshot, levels, from);
      forall e
        ensures e in kept <==> exists i :: 0 <= i < n && merged[i] == e && !Dropped(merged, i, snapshot, levels, from)
      {
        if e in kept && e !in rest {
          assert merged[n - 1] == e && !Dropped(merged, n - 1, snapshot, levels, from);
        }
      }
    }
  }

  lemma {:induction false} ContentsMembers(files: seq<File>)
    ensures forall e :: e in Contents(files) <==> exists f :: f in files && e in f.entries
  {
    if files != [] {
      var init, last := files[..|files| - 1], files[|files| - 1];
      ContentsMembers(init);
      assert files == init + [last];
      forall e
        ensures e in Contents(files) <==> exists f :: f in files && e in f.entries
      {
        if e in last.entries {
          assert last in files;
        }
      }
    }
  }

  lemma ContentsHas(files: seq<File>, f: File, e: Entry)
    requires f in files && e in f.entries
    ensures e in Contents(files)
  {
    ContentsMembers(files);
  }

  lemma SortedParts(a: seq<Entry>, b: seq<Entry>)
    requires Sorted(a + b)
    ensures Sorted(a) && Sorted(b)
    ensures forall x, y :: x in a && y in b ==> Less(x.key, y.key)
  {
    assert forall i :: 0 <= i < |a| ==> (a + b)[i] == a[i];
    assert forall i :: 0 <= i < |b| ==> (a + b)[|a| + i] == b[i];
    forall x, y | x in a && y in b
      ensures Less(x.key, y.key)
    {
      var i :| 0 <= i < |a| && a[i] == x;
      var j :| 0 <= j < |b| && b[j] == y;
      assert Less((a + b)[i].key, (a + b)[|a| + j].key);
    }
  }

  /** Cutting a sorted run into files leaves them disjoint and in order. */
  lemma {:induction false} CutsAreDisjoint(files: seq<File>)
    requires forall f :: f in files ==> FileOk(f)
    requires Sorted(Contents(files))
    ensures Disjoint(files)
  {
    if files != [] {
      var init, last := files[..|files| - 1], files[|files| - 1];
      SortedParts(Contents(init), last.entries);
      CutsAreDisjoint(init);
      assert FileOk(last) && last.entries[0] in last.entries;
      forall i, j | 0 <= i < j < |files|
        ensures Before(files[i], files[j])
      {
        assert files[i] == init[i];
        if j == |init| {
          var f := init[i];
          assert FileOk(f);
          ContentsHas(init, f, f.entries[|f.entries| - 1]);
        } else {
          assert Before(init[i], init[j]);
        }
      }
    }
  }

  // ----- replacing inputs by outputs

  ghost predicate OutsFrom(outs: seq<File>, ins: seq<File>) {
    forall o, e :: o in outs && e in o.entries ==> exists f :: f in ins && e in f.entries
  }

  ghost predicate OutsOk(levels: seq<seq<File>>, ins: seq<File>, outs: seq<File>, limit: nat) {
    && (forall o :: o in outs ==> FileOk(o) && o.number < limit)
    && Disjoint(outs)
    && OutsFrom(outs, ins)
    && (forall i, j :: 0 <= i < j < |outs| ==> outs[i].number != outs[j].number)
    && (forall l, f, o :: At(levels, l, f) && o in outs && f.number == o.number ==> f in ins)
  }

  lemma CompactionOuts(db: Db, from: nat, in0: seq<File>, in1: seq<File>, merged: seq<Entry>, outs: seq<File>,
                       limit: nat)
    requires LevelsOk(db.levels, db.nextFile)
    requires CompactionResult(db, from, in0, in1, merged, outs)
    requires NumbersFrom(outs, db.nextFile, limit)
    ensures OutsOk(db.levels, in0 + in1, outs, limit)
  {
    var snapshot := SmallestSnapshot(db);
    KeptFromMerged(merged, |merged|, snapshot, db.levels, from);
    CutsAreDisjoint(outs);
    ContentsMembers(outs);
    forall o, e | o in outs && e in o.entries
      ensures exists f :: f in in0 + in1 && e in f.entries
    {
      assert e in Contents(outs);
      assert e in merged;
    }
  }

  /** A file of the lower level that was not chosen lies wholly on one side of
      everything that was. */
  lemma UnchosenOnOneSide(levels: seq<seq<File>>, nextFile: nat, from: nat, in0: seq<File>, in1: seq<File>,
                          lo: UserKey, hi: UserKey, g: File)
    requires LevelsOk(levels, nextFile) && Chosen(levels, from, in0, in1, lo, hi)
    requires g in levels[from + 1] && g !in in1
    ensures (forall h :: h in in0 + in1 ==> Before(g, h)) || (forall h :: h in in0 + in1 ==> Before(h, g))
  {
    assert At(levels, from + 1, g);
    forall h | h in in0 + in1
      ensures g.largest.user < lo ==> Before(g, h)
      ensures g.smallest.user > hi ==> Before(h, g)
    {
      if h in in0 {
        assert At(levels, from, h);
      } else {
        assert At(levels, from + 1, h);
        SameLevel(levels[from + 1], g, h);
      }
    }
  }

  lemma SameLevel(files: seq<File>, g: File, h: File)
    requires Disjoint(files) && g in files && h in files && g != h
    ensures Before(g, h) || Before(h, g)
  {
    var i :| 0 <= i < |files| && files[i] == g;
    var j :| 0 <= j < |files| && files[j] == h;
  }

  lemma OutBesideUnchosen(ins: seq<File>, outs: seq<File>, g: File, o: File)
    requires (forall h :: h in ins ==> FileOk(h)) && OutsFrom(outs, ins) && o in outs && FileOk(o)
    ensures (forall h :: h in ins ==> Before(g, h)) ==> Before(g, o)
    ensures (forall h :: h in ins ==> Before(h, g)) ==> Before(o, g)
  {
    var first, last := o.entries[0], o.entries[|o.entries| - 1];
    assert first in o.entries && last in o.entries;
    var h0 :| h0 in ins && first in h0.entries;
    var h1 :| h1 in ins && last in h1.entries;
    InRange(h0, first);
    InRange(h1, last);
  }

  /** An ordered list of pairwise separated files is disjoint. */
  lemma OrderedSeparated(files: seq<File>)
    requires InOrder(files)
    requires forall f :: f in files ==> MetaOk(f)
    requires forall f, g :: f in files && g in files && f != g ==> Before(f, g) || Before(g, f)
    ensures Disjoint(files)
  {
    forall i, j | 0 <= i < j < |files|
      ensures Before(files[i], files[j])
    {
      assert BySmallest(files[i], files[j]);
      assert files[i] != files[j];
      assert MetaOk(files[i]) && MetaOk(files[j]);
    }
  }

  /** Where a file of the new version comes from. */
  lemma Origin(levels: seq<seq<File>>, from: nat, in0: seq<File>, in1: seq<File>, outs: seq<File>,
               levels': seq<seq<File>>, l: int, f: File)
    requires |levels| == NUM_LEVELS && from + 1 < NUM_LEVELS && Replaced(levels, from, in0, in1, outs, levels')
    requires At(levels', l, f)
    ensures (l == from + 1 && f in outs) ||
            (At(levels, l, f) && (l == from ==> f !in in0) && (l == from + 1 ==> f !in in1))
  {
    if l != from && l != from + 1 {
      assert levels'[l] == levels[l];
    }
  }

  lemma ReplacedDisjoint(levels: seq<seq<File>>, nextFile: nat, from: nat, in0: seq<File>, in1: seq<File>,
                         lo: UserKey, hi: UserKey, outs: seq<File>, limit: nat, levels': seq<seq<File>>)
    requires LevelsOk(levels, nextFile) && Chosen(levels, from, in0, in1, lo, hi)
    requires OutsOk(levels, in0 + in1, outs, limit)
    requires Replaced(levels, from, in0, in1, outs, levels')
    ensures Disjoint(levels'[from + 1])
    ensures from > 0 ==> Disjoint(levels'[from])
  {
    var ins := in0 + in1;
    assert forall h :: h in in0 ==> At(levels, from, h);
    assert forall h :: h in in1 ==> At(levels, from + 1, h);
    assert forall f :: f in levels'[from + 1] ==> f in outs || At(levels, from + 1, f);
    forall f, g | f in levels'[from + 1] && g in levels'[from + 1] && f != g
      ensures Before(f, g) || Before(g, f)
    {
      if f in outs && g in outs {
        SameLevel(outs, f, g);
      } else if f in outs {
        UnchosenOnOneSide(levels, nextFile, from, in0, in1, lo, hi, g);
        OutBesideUnchosen(ins, outs, g, f);
      } else if g in outs {
        UnchosenOnOneSide(levels, nextFile, from, in0, in1, lo, hi, f);
        OutBesideUnchosen(ins, outs, f, g);
      } else {
        SameLevel(levels[from + 1], f, g);
      }
    }
    OrderedSeparated(levels'[from + 1]);
    if from > 0 {
      assert forall f :: f in levels'[from] ==> At(levels, from, f);
      forall f, g | f in levels'[from] && g in levels'[from] && f != g
        ensures Before(f, g) || Before(g, f)
      {
        SameLevel(levels[from], f, g);
      }
      OrderedSeparated(levels'[from]);
    }
  }

  lemma ReplacedOnce(levels: seq<seq<File>>, nextFile: nat, from: nat, in0: seq<File>, in1: seq<File>,
                     lo: UserKey, hi: UserKey, outs: seq<File>, limit: nat, levels': seq<seq<File>>)
    requires LevelsOk(levels, nextFile) && Chosen(levels, from, in0, in1, lo, hi)
    requires OutsOk(levels, in0 + in1, outs, limit)
    requires Replaced(levels, from, in0, in1, outs, levels')
    ensures NumbersOnce(levels') && EntriesOnce(levels')
  {
    var ins := in0 + in1;
    assert forall h :: h in in0 ==> At(levels, from, h);
    assert forall h :: h in in1 ==> At(levels, from + 1, h);
    forall l, m, f, g | At(levels', l, f) && At(levels', m, g) && f.number == g.number
      ensures l == m && f == g
    {
      Origin(levels, from, in0, in1, outs, levels', l, f);
      Origin(levels, from, in0, in1, outs, levels', m, g);
      OldBesideNew(levels, nextFile, from, in0, in1, l, f);
      OldBesideNew(levels, nextFile, from, in0, in1, m, g);
    }
    forall l, m, f, g, e | At(levels', l, f) && At(levels', m, g) && e in f.entries && e in g.entries
      ensures l == m && f == g
    {
      Origin(levels, from, in0, in1, outs, levels', l, f);
      Origin(levels, from, in0, in1, outs, levels', m, g);
      OldBesideNew(levels, nextFile, from, in0, in1, l, f);
      OldBesideNew(levels, nextFile, from, in0, in1, m, g);
      if f in outs && g in outs {
        if f != g {
          SameLevel(outs, f, g);
          InRange(f, e);
          InRange(g, e);
        }
      }
    }
  }

  /** A file that stays is no input, so it shares no entry with an input. */
  lemma OldBesideNew(levels: seq<seq<File>>, nextFile: nat, from: nat, in0: seq<File>, in1: seq<File>, l: int, f: File)
    requires LevelsOk(levels, nextFile) && from + 1 < NUM_LEVELS
    requires (forall h :: h in in0 ==> At(levels, from, h)) && (forall h :: h in in1 ==> At(levels, from + 1, h))
    ensures At(levels, l, f) && (l == from ==> f !in in0) && (l == from + 1 ==> f !in in1) ==>
            f !in in0 + in1 && forall h, e :: h in in0 + in1 && e in f.entries ==> e !in h.entries
  {
  }

  lemma ReplacedLevelsOk(levels: seq<seq<File>>, nextFile: nat, from: nat, in0: seq<File>, in1: seq<File>,
                         lo: UserKey, hi: UserKey, outs: seq<File>, limit: nat, levels': seq<seq<File>>)
    requires LevelsOk(levels, nextFile) && Chosen(levels, from, in0, in1, lo, hi) && nextFile <= limit
    requires OutsOk(levels, in0 + in1, outs, limit)
    requires Replaced(levels, from, in0, in1, outs, levels')
    ensures LevelsOk(levels', limit)
    ensures TableEntries(levels') <= TableEntries(levels)
  {
    ReplacedDisjoint(levels, nextFile, from, in0, in1, lo, hi, outs, limit, levels');
    ReplacedOnce(levels, nextFile, from, in0, in1, lo, hi, outs, limit, levels');
    forall l, f | At(levels', l, f)
      ensures FileOk(f) && f.number < limit
      ensures forall e :: e in f.entries ==> e in TableEntries(levels)
    {
      Origin(levels, from, in0, in1, outs, levels', l, f);
      if f in outs {
        forall e | e in f.entries
          ensures e in TableEntries(levels)
        {
          var h :| h in in0 + in1 && e in h.entries;
          assert h in levels[from] || h in levels[from + 1];
        }
      }
    }
    forall l | 0 <= l < NUM_LEVELS
      ensures InOrder(levels'[l])
      ensures l > 0 ==> Disjoint(levels'[l])
    {
      if l != from && l != from + 1 {
        assert levels'[l] == levels[l];
      }
    }
    forall e | e in TableEntries(levels')
      ensures e in TableEntries(levels)
    {
      var l, f :| 0 <= l < |levels'| && f in levels'[l] && e in f.entries;
      assert At(levels', l, f);
    }
  }

  // ----- flushing

  ghost predicate NewFile(levels: seq<seq<File>>, nextFile: nat, f: File) {
    && FileOk(f) && f.number == nextFile
    && forall e :: e in f.entries ==> e !in TableEntries(levels)
  }

  lemma FlushOrigin(levels: seq<seq<File>>, f: File, level: nat, levels': seq<seq<File>>, l: int, g: File)
    requires FlushTo(levels, f, level, levels') && At(levels', l, g)
    ensures (l == level && g == f) || At(levels, l, g)
  {
    if l != level {
      assert levels'[l] == levels[l];
    }
  }

  lemma FlushedDisjoint(levels: seq<seq<File>>, nextFile: nat, f: File, level: nat, levels': seq<seq<File>>)
    requires LevelsOk(levels, nextFile) && NewFile(levels, nextFile, f) && FlushTo(levels, f, level, levels')
             && level > 0
    ensures Disjoint(levels'[level])
  {
    assert forall g :: g in levels'[level] ==> g == f || At(levels, level, g);
    forall g, h | g in levels'[level] && h in levels'[level] && g != h
      ensures Before(g, h) || Before(h, g)
    {
      if g != f && h != f {
        SameLevel(levels[level], g, h);
      } else {
        var other := if g == f then h else g;
        assert !Overlaps(other, Some(f.smallest.user), Some(f.largest.user));
      }
    }
    OrderedSeparated(levels'[level]);
  }

  lemma FlushedLevelsOk(levels: seq<seq<File>>, nextFile: nat, f: File, level: nat, levels': seq<seq<File>>)
    requires LevelsOk(levels, nextFile) && NewFile(levels, nextFile, f) && FlushTo(levels, f, level, levels')
    ensures LevelsOk(levels', nextFile + 1)
    ensures TableEntries(levels') == TableEntries(levels) + Elems(f.entries)
  {
    forall l, g | At(levels', l, g)
      ensures FileOk(g) && g.number <= nextFile
    {
      FlushOrigin(levels, f, level, levels', l, g);
    }
    forall l | 0 <= l < NUM_LEVELS
      ensures InOrder(levels'[l])
      ensures l > 0 ==> Disjoint(levels'[l])
    {
      if l != level {
        assert levels'[l] == levels[l];
      } else if l > 0 {
        FlushedDisjoint(levels, nextFile, f, level, levels');
      }
    }
    forall l, m, g, h | At(levels', l, g) && At(levels', m, h) && g.number == h.number
      ensures l == m && g == h
    {
      FlushOrigin(levels, f, level, levels', l, g);
      FlushOrigin(levels, f, level, levels', m, h);
    }
    forall l, m, g, h, e | At(levels', l, g) && At(levels', m, h) && e in g.entries && e in h.entries
      ensures l == m && g == h
    {
      FlushOrigin(levels, f, level, levels', l, g);
      FlushOrigin(levels, f, level, levels', m, h);
    }
    FlushedEntries(levels, f, level, levels');
  }

  lemma FlushedEntries(levels: seq<seq<File>>, f: File, level: nat, levels': seq<seq<File>>)
    requires FlushTo(levels, f, level, levels')
    ensures TableEntries(levels') == TableEntries(levels) + Elems(f.entries)
  {
    forall e
      ensures e in TableEntries(levels') <==> e in TableEntries(levels) || e in f.entries
    {
      if e in TableEntries(levels') {
        var l, g :| 0 <= l < |levels'| && g in levels'[l] && e in g.entries;
        FlushOrigin(levels, f, level, levels', l, g);
      }
      if e in TableEntries(levels) {
        var l, g :| 0 <= l < |levels| && g in levels[l] && e in g.entries;
        assert g in levels'[l];
      }
      if e in f.entries {
        assert f in levels'[level];
      }
    }
  }

  // ----- all steps

  /** The entries of a batch extend the history in order. */
  lemma BatchExtendsHistory(hist: seq<Entry>, es: seq<Entry>)
    requires HistOk(hist) && |hist| + |es| < MAX_SEQUENCE && IsBatch(es, |hist|)
    ensures HistOk(hist + es)
    ensures forall e :: e in es ==> FromHist(hist + es, e) && e.key.sequence > |hist|
    ensures forall e :: FromHist(hist, e) ==> FromHist(hist + es, e)
  {
    assert forall i :: 0 <= i < |es| ==> (hist + es)[|hist| + i] == es[i];
  }

  lemma WriteIntoMem(hist: seq<Entry>, mem: seq<Entry>, es: seq<Entry>)
    requires Sorted(mem) && (forall e :: e in mem ==> FromHist(hist, e)) && IsBatch(es, |hist|)
    ensures Sorted(InsertAll(mem, es)) && Elems(InsertAll(mem, es)) == Elems(mem) + Elems(es)
  {
    InsertAllSorted(mem, es);
    InsertAllMembers(mem, es);
  }

  lemma NewestMem(hist: seq<Entry>, mem: set<Entry>, es: set<Entry>, older: set<Entry>)
    requires AllNewer(mem, older)
    requires (forall e :: e in older ==> FromHist(hist, e)) && (forall e :: e in es ==> e.key.sequence > |hist|)
    ensures AllNewer(mem + es, older)
  {
  }

  lemma UnionShuffle(a: set<Entry>, b: set<Entry>, c: set<Entry>)
    ensures a + b + c == a + c + b
    ensures a + (b + c) == a + b + c
  {
  }

  lemma WriteKeepsBase(s: State, es: seq<Entry>, s': State)
    requires BaseInv(s) && Next(s, Write(es), s')
    ensures BaseInv(s')
    ensures Stored(s'.db) == Stored(s.db) + Elems(es)
  {
    assert forall e :: e in s.db.mem ==> e in Stored(s.db);
    WriteIntoMem(s.hist, s.db.mem, es);
    WriteFrame(s, es, s');
  }

  lemma WriteStored(db: Db, db': Db, es: set<Entry>)
    requires db'.imm == db.imm && db'.levels == db.levels && Elems(db'.mem) == Elems(db.mem) + es
    ensures Stored(db') == Stored(db) + es
  {
    UnionShuffle(Elems(db.mem), Elems(ImmEntries(db)), TableEntries(db.levels));
    UnionShuffle(Elems(db'.mem), Elems(ImmEntries(db)), TableEntries(db.levels));
    UnionShuffle(Elems(db.mem), es, Elems(ImmEntries(db)) + TableEntries(db.levels));
  }

  lemma WriteFrame(s: State, es: seq<Entry>, s': State)
    requires BaseInv(s) && |s.hist| + |es| < MAX_SEQUENCE && IsBatch(es, |s.hist|)
    requires s'.db == s.db.(mem := s'.db.mem, lastSequence := |s.hist| + |es|) && s'.hist == s.hist + es
    requires Sorted(s'.db.mem) && Elems(s'.db.mem) == Elems(s.db.mem) + Elems(es)
    ensures BaseInv(s')
    ensures Stored(s'.db) == Stored(s.db) + Elems(es)
  {
    BatchExtendsHistory(s.hist, es);
    WriteStored(s.db, s'.db, Elems(es));
    NewestMem(s.hist, Elems(s.db.mem), Elems(es), Elems(ImmEntries(s.db)) + TableEntries(s.db.levels));
  }

  lemma FlushKeepsBase(s: State, level: nat, size: nat, s': State)
    requires BaseInv(s) && Next(s, Flush(level, size), s')
    ensures BaseInv(s')
    ensures Stored(s'.db) == Stored(s.db)
    ensures s.db.imm.value != [] ==> NewFile(s.db.levels, s.db.nextFile, FileOf(s.db.nextFile, size, s.db.imm.value))
  {
    var imm := s.db.imm.value;
    if imm == [] {
      assert forall l, f :: At(s'.db.levels, l, f) ==> At(s.db.levels, l, f);
    } else {
      var f := FileOf(s.db.nextFile, size, imm);
      forall e | e in imm
        ensures e !in TableEntries(s.db.levels) && e.key.sequence <= MAX_SEQUENCE
      {
        assert e in Elems(imm) && e in Stored(s.db);
      }
      assert imm[0] in imm && imm[|imm| - 1] in imm;
      assert |imm| > 1 ==> Less(imm[0].key, imm[|imm| - 1].key);
      FlushedLevelsOk(s.db.levels, s.db.nextFile, f, level, s'.db.levels);
    }
    assert ImmEntries(s'.db) == [];
  }

  lemma MoveKeepsBase(s: State, from: nat, f: File, s': State)
    requires BaseInv(s) && Next(s, TrivialMove(from, f), s')
    ensures BaseInv(s')
    ensures OutsOk(s.db.levels, [f], [f], s.db.nextFile)
  {
    assert f in [f] && At(s.db.levels, from, f);
    assert forall o, e :: o in [f] && e in o.entries ==> f in [f] && e in f.entries;
    assert [f] + [] == [f];
    ReplacedLevelsOk(s.db.levels, s.db.nextFile, from, [f], [], f.smallest.user, f.largest.user, [f], s.db.nextFile,
                     s'.db.levels);
  }

  lemma CompactKeepsBase(s: State, step: Step, s': State)
    requires step.Compact? && BaseInv(s) && Next(s, step, s')
    ensures BaseInv(s')
    ensures OutsOk(s.db.levels, step.in0 + step.in1, step.outs, s'.db.nextFile)
  {
    var merged :| CompactionResult(s.db, step.from, step.in0, step.in1, merged, step.outs);
    CompactionOuts(s.db, step.from, step.in0, step.in1, merged, step.outs, s'.db.nextFile);
    ReplacedLevelsOk(s.db.levels, s.db.nextFile, step.from, step.in0, step.in1, step.lo, step.hi, step.outs,
                     s'.db.nextFile, s'.db.levels);
  }

  // ----- reopening

  lemma ReopenOrigin(db: Db, files: seq<File>, first: nat, db': Db, l: int, f: File)
    requires |db.levels| == NUM_LEVELS && Reopened(db, files, first, db') && At(db'.levels, l, f)
    ensures (l == 0 && f in files) || At(db.levels, l, f)
  {
    if l != 0 {
      assert db'.levels[l] == db.levels[l];
    }
  }

  lemma ReopenedEntries(db: Db, files: seq<File>, first: nat, db': Db)
    requires |db.levels| == NUM_LEVELS && Reopened(db, files, first, db')
    ensures TableEntries(db'.levels) == TableEntries(db.levels) + (Elems(db.mem) + Elems(ImmEntries(db)))
    ensures forall f, e :: f in files && e in f.entries ==> e in Elems(db.mem) + Elems(ImmEntries(db))
  {
    ContentsMembers(files);
    forall e
      ensures e in TableEntries(db'.levels) <==> e in TableEntries(db.levels) || e in Contents(files)
    {
      if e in TableEntries(db'.levels) {
        var l, f :| 0 <= l < |db'.levels| && f in db'.levels[l] && e in f.entries;
        ReopenOrigin(db, files, first, db', l, f);
      }
      if e in TableEntries(db.levels) {
        var l, f :| 0 <= l < |db.levels| && f in db.levels[l] && e in f.entries;
        assert f in db'.levels[l];
      }
      if e in Contents(files) {
        var f :| f in files && e in f.entries;
        assert f in db'.levels[0];
      }
    }
  }

  lemma OneNewFile(files: seq<File>, first: nat, limit: nat, f: File, g: File)
    requires NumbersFrom(files, first, limit) && OldestFirst(files) && f in files && g in files
    ensures f.number == g.number ==> f == g
    ensures forall e :: e in f.entries && e in g.entries ==> f == g
  {
    var i :| 0 <= i < |files| && files[i] == f;
    var j :| 0 <= j < |files| && files[j] == g;
    forall e | e in f.entries && e in g.entries
      ensures i == j
    {
      assert i < j ==> AllOlder(f, g);
      assert j < i ==> AllOlder(g, f);
    }
  }

  /** New files share no number and no entry with any other. */
  lemma ReopenedOnce(db: Db, files: seq<File>, first: nat, db': Db)
    requires |db.levels| == NUM_LEVELS && Reopened(db, files, first, db') && NumbersOnce(db.levels)
             && EntriesOnce(db.levels)
    requires forall f, e :: f in files && e in f.entries ==> e !in TableEntries(db.levels)
    ensures NumbersOnce(db'.levels) && EntriesOnce(db'.levels)
  {
    assert forall l, f, e :: At(db.levels, l, f) && e in f.entries ==> e in TableEntries(db.levels);
    hide TableEntries, Updated, OldestFirst, FileOk;
    forall l, m, f, g | At(db'.levels, l, f) && At(db'.levels, m, g)
      ensures f.number == g.number ==> l == m && f == g
      ensures forall e :: e in f.entries && e in g.entries ==> l == m && f == g
    {
      ReopenOrigin(db, files, first, db', l, f);
      ReopenOrigin(db, files, first, db', m, g);
      if l == 0 && m == 0 && f in files && g in files {
        OneNewFile(files, first, db'.nextFile, f, g);
      }
    }
  }

  lemma ReopenedLevelsOk(db: Db, files: seq<File>, first: nat, db': Db)
    requires LevelsOk(db.levels, db.nextFile) && Reopened(db, files, first, db')
    requires forall f, e :: f in files && e in f.entries ==> e !in TableEntries(db.levels)
    ensures LevelsOk(db'.levels, db'.nextFile)
  {
    ReopenedOnce(db, files, first, db');
    hide NumbersOnce, EntriesOnce, FileOk, OldestFirst;
    forall l, f | At(db'.levels, l, f)
      ensures FileOk(f) && f.number < db'.nextFile
    {
      ReopenOrigin(db, files, first, db', l, f);
    }
    forall l | 0 <= l < NUM_LEVELS
      ensures InOrder(db'.levels[l]) && (l > 0 ==> Disjoint(db'.levels[l]))
    {
      if l > 0 {
        assert db'.levels[l] == db.levels[l];
      }
    }
  }

  lemma ReopenKeepsBase(s: State, files: seq<File>, first: nat, s': State)
    requires BaseInv(s) && Next(s, Reopen(files, first), s')
    ensures BaseInv(s') && Stored(s'.db) == Stored(s.db)
  {
    assert |s.db.levels| == NUM_LEVELS;
    hide LevelsOk, FileOk, OldestFirst, Updated, TableEntries, HistOk, FromHist;
    ReopenedEntries(s.db, files, first, s'.db);
    UnionShuffle(Elems(s.db.mem), Elems(ImmEntries(s.db)), TableEntries(s.db.levels));
    MemoryIsElsewhere(s);
    ReopenedLevelsOk(s.db, files, first, s'.db);
    assert Elems(s'.db.mem) == {} && Elems(ImmEntries(s'.db)) == {};
    assert Stored(s'.db) == TableEntries(s'.db.levels);
  }

  /** No table holds an entry of a memtable. */
  lemma MemoryIsElsewhere(s: State)
    requires BaseInv(s)
    ensures forall e :: e in Elems(s.db.mem) + Elems(ImmEntries(s.db)) ==> e !in TableEntries(s.db.levels)
  {
    hide LevelsOk, TableEntries, HistOk, FromHist, Sorted;
  }

  lemma NextKeepsBase(s: State, step: Step, s': State)
    requires BaseInv(s) && Next(s, step, s')
    ensures BaseInv(s')
  {
    match step
    case Write(es) => WriteKeepsBase(s, es, s');
    case SwitchMemTable =>
    case Flush(level, size) => FlushKeepsBase(s, level, size, s');
    case TrivialMove(from, f) => MoveKeepsBase(s, from, f, s');
    case Compact(_, _, _, _, _, _) => CompactKeepsBase(s, step, s');
    case GetSnapshot =>
    case ReleaseSnapshot(_) =>
    case Reopen(files, first) => ReopenKeepsBase(s, files, first, s');
  }

  // ----- runs

  ghost predicate IsRun(states: seq<State>, steps: seq<Step>) {
    && |states| == |steps| + 1
    && states[0] == INIT
    && forall i :: 0 <= i < |steps| ==> |states[i].db.levels| == NUM_LEVELS && Next(states[i], steps[i], states[i + 1])
  }

  lemma InitBase()
    ensures BaseInv(INIT)
  {
    assert forall l, f :: !At(INIT.db.levels, l, f);
  }

  /** Over every run of writes, flushes, trivial moves, automatic and manual
      compactions, snapshots, crashes and reopenings, levels above 0 stay sorted and disjoint by
      internal key, and every stored entry is a write stored in one file. */
  lemma {:induction false} LevelsStayDisjoint(states: seq<State>, steps: seq<Step>, i: nat)
    requires IsRun(states, steps) && i < |states|
    ensures BaseInv(states[i])
    ensures forall l :: 1 <= l < NUM_LEVELS ==> Disjoint(states[i].db.levels[l])
  {
    if i == 0 {
      InitBase();
    } else {
      LevelsStayDisjoint(states, steps, i - 1);
      NextKeepsBase(states[i - 1], steps[i - 1], states[i]);
    }
  }
}
