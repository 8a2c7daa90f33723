/** Which steps keep reads right: every step but a compaction or a move that leaves
    older versions of a key in the wrong place, and the condition is exact. */
module LsmRuns {
  import opened Format
  import opened Version
  import opened Lsm
  import opened LsmLevels
  import opened LsmReads
  import opened LsmDrops
  import opened LsmExact

  // ----- levels stay ordered

  lemma OrderedUserSeparated(files: seq<File>)
    requires InOrder(files)
    requires forall f :: f in files ==> MetaOk(f)
    requires forall f, g :: f in files && g in files && f != g ==> UserBefore(f, g) || UserBefore(g, f)
    ensures UserDisjoint(files)
  {
    forall i, j | 0 <= i < j < |files|
      ensures UserBefore(files[i], files[j])
    {
      assert BySmallest(files[i], files[j]);
      assert files[i] != files[j];
      assert MetaOk(files[i]) && MetaOk(files[j]);
    }
  }

  lemma SameLevelUser(files: seq<File>, g: File, h: File)
    requires UserDisjoint(files) && g in files && h in files && g != h
    ensures UserBefore(g, h) || UserBefore(h, g)
  {
    var i :| 0 <= i < |files| && files[i] == g;
    var j :| 0 <= j < |files| && files[j] == h;
  }

  lemma FlushedOrdered(levels: seq<seq<File>>, nextFile: nat, f: File, level: nat, levels': seq<seq<File>>)
    requires LevelsOk(levels, nextFile) && LevelsOrdered(levels)
    requires NewFile(levels, nextFile, f) && FlushTo(levels, f, level, levels')
    requires AllNewer(Elems(f.entries), TableEntries(levels))
    ensures LevelsOrdered(levels')
  {
    forall l, g | At(levels, l, g)
      ensures Newer(f, g)
      ensures l < level ==> Newer(g, f)
    {
      forall e, x | e in f.entries && x in g.entries && e.key.user == x.key.user
        ensures e.key.sequence > x.key.sequence
        ensures l >= level
      {
        assert e in Elems(f.entries) && x in TableEntries(levels);
        InRange(f, e);
        InRange(g, x);
        assert l < level ==> !Overlaps(g, Some(f.smallest.user), Some(f.largest.user));
      }
    }
    forall l, m, g, h | At(levels', l, g) && At(levels', m, h) && (l < m || (l == m == 0 && g.number > h.number))
      ensures Newer(g, h)
    {
      FlushOrigin(levels, f, level, levels', l, g);
      FlushOrigin(levels, f, level, levels', m, h);
    }
    assert forall g :: g in levels'[0] ==> At(levels', 0, g);
  }

  /** The files that stay at the upper input level are newer than the outputs. */
  ghost predicate LeftAreNewer(levels: seq<seq<File>>, from: nat, in0: seq<File>, outs: seq<File>)
    requires from < |levels|
  {
    forall f, o :: f in levels[from] && f !in in0 && o in outs ==> Newer(f, o)
  }

  lemma NewerThroughInputs(f: File, ins: seq<File>, outs: seq<File>, o: File)
    requires OutsFrom(outs, ins) && o in outs
    ensures (forall h :: h in ins ==> Newer(f, h)) ==> Newer(f, o)
    ensures (forall h :: h in ins ==> Newer(h, f)) ==> Newer(o, f)
  {
    forall e | e in o.entries
      ensures exists h :: h in ins && e in h.entries
    {
    }
  }

  /** Files above level `from` are newer than what was compacted. */
  lemma AboveOutput(levels: seq<seq<File>>, from: nat, in0: seq<File>, in1: seq<File>, outs: seq<File>,
                    l: int, f: File, o: File)
    requires LevelsOrdered(levels) && from + 1 < NUM_LEVELS && At(levels, l, f) && l < from
    requires (forall h :: h in in0 ==> At(levels, from, h)) && (forall h :: h in in1 ==> At(levels, from + 1, h))
    requires OutsFrom(outs, in0 + in1) && o in outs
    ensures Newer(f, o)
  {
    NewerThroughInputs(f, in0 + in1, outs, o);
  }

  lemma OutputAbove(levels: seq<seq<File>>, from: nat, in0: seq<File>, in1: seq<File>, outs: seq<File>,
                    m: int, g: File, o: File)
    requires LevelsOrdered(levels) && from + 1 < NUM_LEVELS && At(levels, m, g) && m > from + 1
    requires (forall h :: h in in0 ==> At(levels, from, h)) && (forall h :: h in in1 ==> At(levels, from + 1, h))
    requires OutsFrom(outs, in0 + in1) && o in outs
    ensures Newer(o, g)
  {
    NewerThroughInputs(g, in0 + in1, outs, o);
  }

  /** The order of the levels survives if and only if the files left at the upper
      input level are newer than the outputs. */
  lemma ReplacedOrderedIff(levels: seq<seq<File>>, from: nat, in0: seq<File>, in1: seq<File>,
                           lo: UserKey, hi: UserKey, outs: seq<File>, levels': seq<seq<File>>)
    requires LevelsOrdered(levels) && Chosen(levels, from, in0, in1, lo, hi)
    requires OutsFrom(outs, in0 + in1) && Replaced(levels, from, in0, in1, outs, levels')
    ensures LevelsOrdered(levels') <==> LeftAreNewer(levels, from, in0, outs)
  {
    hide Newer, OutsFrom;
    assert (forall h :: h in in0 ==> At(levels, from, h)) && (forall h :: h in in1 ==> At(levels, from + 1, h));
    if LeftAreNewer(levels, from, in0, outs) {
      forall l, m, f, g | At(levels', l, f) && At(levels', m, g) && (l < m || (l == m == 0 && f.number > g.number))
        ensures Newer(f, g)
      {
        Origin(levels, from, in0, in1, outs, levels', l, f);
        Origin(levels, from, in0, in1, outs, levels', m, g);
        if m == from + 1 && g in outs {
          if l < from {
            AboveOutput(levels, from, in0, in1, outs, l, f, g);
          }
        } else if l == from + 1 && f in outs {
          OutputAbove(levels, from, in0, in1, outs, m, g, f);
        }
      }
      assert forall f :: f in levels'[0] ==> At(levels', 0, f);
    } else {
      var f, o :| f in levels[from] && f !in in0 && o in outs && !Newer(f, o);
      assert At(levels', from, f) && At(levels', from + 1, o);
    }
  }

  // ----- what the compaction loop drops

  /** The loop's one-entry memory decides rule (A) exactly: an entry is dropped
      by it if and only if some newer input of its key is at or below the
      snapshot. */
  lemma RuleA(merged: seq<Entry>, i: nat, snapshot: nat, hist: seq<Entry>)
    requires Sorted(merged) && i < |merged| && snapshot < MAX_SEQUENCE
    requires AllFromHist(hist, Elems(merged))
    ensures LastSequenceForKey(merged, i) <= snapshot <==>
            exists p :: p in merged && p.key.user == merged[i].key.user
                        && merged[i].key.sequence < p.key.sequence <= snapshot
  {
    var x := merged[i];
    if LastSequenceForKey(merged, i) <= snapshot {
      var p := merged[i - 1];
      assert Less(p.key, x.key);
      assert FromHist(hist, p) && FromHist(hist, x);
    }
    forall p | p in merged && p.key.user == x.key.user && x.key.sequence < p.key.sequence <= snapshot
      ensures LastSequenceForKey(merged, i) <= snapshot
    {
      var j :| 0 <= j < |merged| && merged[j] == p;
      assert j < i;
      assert j < i - 1 ==> Less(merged[j].key, merged[i - 1].key);
      assert Less(merged[i - 1].key, merged[i].key);
    }
  }

  /** Entries that stay where they are. */
  ghost function Others(levels: seq<seq<File>>, from: nat, in0: seq<File>, in1: seq<File>): set<Entry> {
    set l, f, e | 0 <= l < |levels| && f in levels[l] && e in f.entries
                  && !(l == from && f in in0) && !(l == from + 1 && f in in1) :: e
  }

  lemma ReplacedEntries(levels: seq<seq<File>>, from: nat, in0: seq<File>, in1: seq<File>, outs: seq<File>,
                        levels': seq<seq<File>>)
    requires |levels| == NUM_LEVELS && from + 1 < NUM_LEVELS
    requires (forall f :: f in in0 ==> f in levels[from]) && (forall f :: f in in1 ==> f in levels[from + 1])
    requires Replaced(levels, from, in0, in1, outs, levels')
    ensures TableEntries(levels) == Others(levels, from, in0, in1) + FileEntries(in0 + in1)
    ensures TableEntries(levels') == Others(levels, from, in0, in1) + FileEntries(outs)
  {
    var others := Others(levels, from, in0, in1);
    forall e | e in TableEntries(levels')
      ensures e in others + FileEntries(outs)
    {
      var l, f :| 0 <= l < |levels'| && f in levels'[l] && e in f.entries;
      assert At(levels', l, f);
      Origin(levels, from, in0, in1, outs, levels', l, f);
    }
    forall e | e in others
      ensures e in TableEntries(levels')
    {
      var l, f :| 0 <= l < |levels| && f in levels[l] && e in f.entries && !(l == from && f in in0)
          && !(l == from + 1 && f in in1);
      assert f in levels'[l];
    }
    forall e | e in FileEntries(outs)
      ensures e in TableEntries(levels')
    {
      var f :| f in outs && e in f.entries;
      assert f in levels'[from + 1];
    }
    forall e | e in FileEntries(in0 + in1)
      ensures e in TableEntries(levels)
    {
      var f :| f in in0 + in1 && e in f.entries;
      assert f in levels[from] || f in levels[from + 1];
    }
  }

  /** The outputs hold exactly the merged entries that were not dropped. */
  lemma OutputsAreKept(db: Db, from: nat, in0: seq<File>, in1: seq<File>, merged: seq<Entry>, outs: seq<File>, e: Entry)
    requires |db.levels| == NUM_LEVELS && CompactionResult(db, from, in0, in1, merged, outs)
    ensures e in FileEntries(outs) <==>
            exists i :: 0 <= i < |merged| && merged[i] == e
                && !Dropped(merged, i, SmallestSnapshot(db), db.levels, from)
    ensures e in merged <==> e in FileEntries(in0 + in1)
  {
    KeptFromMerged(merged, |merged|, SmallestSnapshot(db), db.levels, from);
    ContentsMembers(outs);
    assert e in FileEntries(outs) <==> e in Contents(outs);
  }

  lemma MergedFromHist(s: State, step: Step, merged: seq<Entry>)
    requires BaseInv(s) && step.Compact? && Chosen(s.db.levels, step.from, step.in0, step.in1, step.lo, step.hi)
    requires IsMergeOf(merged, step.in0 + step.in1)
    ensures AllFromHist(s.hist, Elems(merged))
  {
    InputsStored(s, step);
    assert forall e :: e in merged ==> e in FileEntries(step.in0 + step.in1);
  }

  lemma KeptIsNotHidden(s: State, step: Step, merged: seq<Entry>, x: Entry, p: Entry)
    requires Sound(s) && step.Compact? && Chosen(s.db.levels, step.from, step.in0, step.in1, step.lo, step.hi)
    requires CompactionResult(s.db, step.from, step.in0, step.in1, merged, step.outs)
    requires x in FileEntries(step.outs) && p in FileEntries(step.in0 + step.in1)
    requires x.key.user == p.key.user && x.key.sequence < p.key.sequence
    ensures p.key.sequence > SmallestSnapshot(s.db)
  {
    var snapshot := SmallestSnapshot(s.db);
    MergedFromHist(s, step, merged);
    OutputsAreKept(s.db, step.from, step.in0, step.in1, merged, step.outs, x);
    OutputsAreKept(s.db, step.from, step.in0, step.in1, merged, step.outs, p);
    var i :| 0 <= i < |merged| && merged[i] == x && !Dropped(merged, i, snapshot, s.db.levels, step.from);
    RuleA(merged, i, snapshot, s.hist);
  }

  lemma DropIsJust(s: State, step: Step, merged: seq<Entry>, e: Entry)
    requires Sound(s) && step.Compact? && Chosen(s.db.levels, step.from, step.in0, step.in1, step.lo, step.hi)
    requires CompactionResult(s.db, step.from, step.in0, step.in1, merged, step.outs)
    requires e in FileEntries(step.in0 + step.in1) && e !in FileEntries(step.outs)
    ensures || Hidden(FileEntries(step.in0 + step.in1), e, SmallestSnapshot(s.db))
            || (e.key.kind.Deletion? && e.key.sequence <= SmallestSnapshot(s.db)
               && IsBase(s.db.levels, step.from, e.key.user))
  {
    var snapshot := SmallestSnapshot(s.db);
    MergedFromHist(s, step, merged);
    OutputsAreKept(s.db, step.from, step.in0, step.in1, merged, step.outs, e);
    var i :| 0 <= i < |merged| && merged[i] == e;
    assert Dropped(merged, i, snapshot, s.db.levels, step.from);
    RuleA(merged, i, snapshot, s.hist);
    if LastSequenceForKey(merged, i) <= snapshot {
      var p :| p in merged && p.key.user == e.key.user && e.key.sequence < p.key.sequence <= snapshot;
      OutputsAreKept(s.db, step.from, step.in0, step.in1, merged, step.outs, p);
    }
  }

  /** The loop drops every hidden entry, and besides those only deletions that are
      visible at the snapshot. */
  lemma CompactionDrops(s: State, step: Step, merged: seq<Entry>, ins: set<Entry>, outs: set<Entry>)
    requires Sound(s) && step.Compact? && Chosen(s.db.levels, step.from, step.in0, step.in1, step.lo, step.hi)
    requires CompactionResult(s.db, step.from, step.in0, step.in1, merged, step.outs)
    requires ins == FileEntries(step.in0 + step.in1) && outs == FileEntries(step.outs)
    ensures outs <= ins
    ensures HiddenAreDropped(ins, outs, SmallestSnapshot(s.db)) && DropsByRule(ins, outs, SmallestSnapshot(s.db))
  {
    hide CompactionResult, Hidden, Sound;
    forall e | e in outs
      ensures e in ins
    {
      OutputsAreKept(s.db, step.from, step.in0, step.in1, merged, step.outs, e);
    }
    forall x, p | x in outs && p in ins && x.key.user == p.key.user && x.key.sequence < p.key.sequence
      ensures p.key.sequence > SmallestSnapshot(s.db)
    {
      KeptIsNotHidden(s, step, merged, x, p);
    }
    forall e | e in ins && e !in outs
      ensures Hidden(ins, e, SmallestSnapshot(s.db))
              || (e.key.kind.Deletion? && e.key.sequence <= SmallestSnapshot(s.db))
    {
      DropIsJust(s, step, merged, e);
    }
  }

  // ----- the two conditions on a compaction

  /** The newest input of the key is a deletion that the loop drops at the base level,
      so the outputs hold nothing of the key. */
  ghost predicate Vanishes(db: Db, from: nat, ins: set<Entry>, u: UserKey)
    requires |db.levels| == NUM_LEVELS
  {
    exists p :: IsNewest(ins, u, db.lastSequence, p) && p.key.kind.Deletion?
                && p.key.sequence <= SmallestSnapshot(db) && IsBase(db.levels, from, u)
  }

  /** A file that stays at level `from` holds an older version of a key of an upper
      input only if the key vanishes. */
  ghost predicate OrderSafe(db: Db, from: nat, in0: seq<File>, in1: seq<File>)
    requires |db.levels| == NUM_LEVELS && from < NUM_LEVELS
  {
    forall f, h, x, e :: f in db.levels[from] && f !in in0 && h in in0 && x in f.entries && e in h.entries
                         && x.key.user == e.key.user && x.key.sequence < e.key.sequence ==>
      Vanishes(db, from, FileEntries(in0 + in1), x.key.user)
  }

  /** A deletion that reads at the snapshot see, and that is dropped at the base level,
      uncovers no value in the files that stay. */
  ghost predicate DeletionsSafe(db: Db, from: nat, in0: seq<File>, in1: seq<File>)
    requires |db.levels| == NUM_LEVELS
  {
    forall e :: e in FileEntries(in0 + in1) && e.key.kind.Deletion? && IsBase(db.levels, from, e.key.user)
                && IsNewest(Stored(db), e.key.user, SmallestSnapshot(db), e) ==>
      NoValueNewest(Others(db.levels, from, in0, in1), e.key.user, e.key.sequence)
  }

  /** Nothing of a key that vanishes is kept. */
  lemma VanishedIsDropped(s: State, step: Step, merged: seq<Entry>, e: Entry)
    requires Sound(s) && step.Compact? && Chosen(s.db.levels, step.from, step.in0, step.in1, step.lo, step.hi)
    requires CompactionResult(s.db, step.from, step.in0, step.in1, merged, step.outs)
    requires e in FileEntries(step.outs)
    ensures !Vanishes(s.db, step.from, FileEntries(step.in0 + step.in1), e.key.user)
  {
    hide CompactionResult, Dropped, Sound, IsBase;
    var ins, snapshot := FileEntries(step.in0 + step.in1), SmallestSnapshot(s.db);
    CompactionDrops(s, step, merged, ins, FileEntries(step.outs));
    InputOf(s, step, e);
    forall p | IsNewest(ins, e.key.user, s.db.lastSequence, p) && p.key.kind.Deletion? && p.key.sequence <= snapshot
      ensures !IsBase(s.db.levels, step.from, e.key.user)
    {
      InputOf(s, step, p);
      if IsBase(s.db.levels, step.from, e.key.user) {
        DeletionIsDropped(s, step, merged, p);
      }
    }
  }

  lemma InputOf(s: State, step: Step, e: Entry)
    requires Sound(s) && step.Compact? && Chosen(s.db.levels, step.from, step.in0, step.in1, step.lo, step.hi)
    requires e in FileEntries(step.in0 + step.in1)
    ensures FromHist(s.hist, e) && e.key.sequence <= s.db.lastSequence
  {
    InputsStored(s, step);
  }

  /** A base-level deletion that is visible at the snapshot is not kept. */
  lemma DeletionIsDropped(s: State, step: Step, merged: seq<Entry>, p: Entry)
    requires Sound(s) && step.Compact? && Chosen(s.db.levels, step.from, step.in0, step.in1, step.lo, step.hi)
    requires CompactionResult(s.db, step.from, step.in0, step.in1, merged, step.outs)
    requires p.key.kind.Deletion? && p.key.sequence <= SmallestSnapshot(s.db)
             && IsBase(s.db.levels, step.from, p.key.user)
    ensures p !in FileEntries(step.outs)
  {
    hide IsBase;
    OutputsAreKept(s.db, step.from, step.in0, step.in1, merged, step.outs, p);
  }

  /** The newest input of a key is kept unless the key vanishes. */
  lemma NewestIsKept(s: State, step: Step, merged: seq<Entry>, e: Entry) returns (p: Entry)
    requires Sound(s) && step.Compact? && Chosen(s.db.levels, step.from, step.in0, step.in1, step.lo, step.hi)
    requires CompactionResult(s.db, step.from, step.in0, step.in1, merged, step.outs)
    requires e in FileEntries(step.in0 + step.in1)
    requires !Vanishes(s.db, step.from, FileEntries(step.in0 + step.in1), e.key.user)
    ensures p in FileEntries(step.outs) && p.key.user == e.key.user && p.key.sequence >= e.key.sequence
  {
    hide CompactionResult, Chosen, IsBase;
    var ins := FileEntries(step.in0 + step.in1);
    InputsStored(s, step);
    assert FromHist(s.hist, e);
    p := SomeNewest(ins, e.key.user, s.db.lastSequence, e);
    if p !in FileEntries(step.outs) {
      DropIsJust(s, step, merged, p);
    }
  }

  /** The condition on the outputs, said on the inputs. */
  lemma OrderSafeIff(s: State, step: Step, merged: seq<Entry>)
    requires Inv(s) && step.Compact? && Chosen(s.db.levels, step.from, step.in0, step.in1, step.lo, step.hi)
    requires CompactionResult(s.db, step.from, step.in0, step.in1, merged, step.outs)
    ensures LeftAreNewer(s.db.levels, step.from, step.in0, step.outs)
            <==> OrderSafe(s.db, step.from, step.in0, step.in1)
  {
    hide CompactionResult, Vanishes, Inv;
    var levels, ins := s.db.levels, FileEntries(step.in0 + step.in1);
    if LeftAreNewer(levels, step.from, step.in0, step.outs) {
      forall f, h, x, e | f in levels[step.from] && f !in step.in0 && h in step.in0 && x in f.entries && e in h.entries
                          && x.key.user == e.key.user && x.key.sequence < e.key.sequence
        ensures Vanishes(s.db, step.from, ins, x.key.user)
      {
        LeftVanishes(s, step, merged, f, h, x, e);
      }
    }
    if OrderSafe(s.db, step.from, step.in0, step.in1) {
      forall f, o, x, e | f in levels[step.from] && f !in step.in0 && o in step.outs && x in f.entries && e in o.entries
                          && x.key.user == e.key.user
        ensures x.key.sequence > e.key.sequence
      {
        OutputBelow(s, step, merged, f, o, x, e);
      }
    }
  }

  lemma InvIsSound(s: State)
    requires Inv(s)
    ensures Sound(s)
  {
  }

  lemma LeftVanishes(s: State, step: Step, merged: seq<Entry>, f: File, h: File, x: Entry, e: Entry)
    requires Inv(s) && step.Compact? && Chosen(s.db.levels, step.from, step.in0, step.in1, step.lo, step.hi)
    requires CompactionResult(s.db, step.from, step.in0, step.in1, merged, step.outs)
    requires LeftAreNewer(s.db.levels, step.from, step.in0, step.outs)
    requires f in s.db.levels[step.from] && f !in step.in0 && h in step.in0 && x in f.entries && e in h.entries
    requires x.key.user == e.key.user && x.key.sequence < e.key.sequence
    ensures Vanishes(s.db, step.from, FileEntries(step.in0 + step.in1), x.key.user)
  {
    hide CompactionResult, Vanishes, Inv, Sound;
    InvIsSound(s);
    assert h in step.in0 + step.in1 && e in FileEntries(step.in0 + step.in1);
    if !Vanishes(s.db, step.from, FileEntries(step.in0 + step.in1), x.key.user) {
      var p := NewestIsKept(s, step, merged, e);
    }
  }

  lemma OutputBelow(s: State, step: Step, merged: seq<Entry>, f: File, o: File, x: Entry, e: Entry)
    requires Inv(s) && step.Compact? && Chosen(s.db.levels, step.from, step.in0, step.in1, step.lo, step.hi)
    requires CompactionResult(s.db, step.from, step.in0, step.in1, merged, step.outs)
    requires OrderSafe(s.db, step.from, step.in0, step.in1)
    requires f in s.db.levels[step.from] && f !in step.in0 && o in step.outs && x in f.entries && e in o.entries
    requires x.key.user == e.key.user
    ensures x.key.sequence > e.key.sequence
  {
    hide CompactionResult, Vanishes, Inv, Sound, FromHist;
    InvIsSound(s);
    var levels := s.db.levels;
    assert e in FileEntries(step.outs);
    OutputsFromInputs(s, step, merged, e);
    VanishedIsDropped(s, step, merged, e);
    var h :| h in step.in0 + step.in1 && e in h.entries;
    if h in step.in0 {
      assert At(levels, step.from, f) && At(levels, step.from, h);
      OneOrOther(s, step.from, f, x, h, e);
    } else {
      UpperIsNewer(s, step.from, f, h);
    }
  }

  /** Two files of a level hold no entry of the same sequence. */
  lemma OneOrOther(s: State, l: nat, f: File, x: Entry, h: File, e: Entry)
    requires Sound(s) && At(s.db.levels, l, f) && At(s.db.levels, l, h) && f != h && x in f.entries && e in h.entries
    ensures x.key.sequence != e.key.sequence
  {
    hide LevelsOrdered, Covered;
    var levels := s.db.levels;
    assert x in TableEntries(levels) && e in TableEntries(levels);
    assert x in Stored(s.db) && e in Stored(s.db);
    assert FromHist(s.hist, x) && FromHist(s.hist, e);
    Elsewhere(levels, l, f, x, l, h, e);
  }

  lemma UpperIsNewer(s: State, l: nat, f: File, h: File)
    requires Inv(s) && At(s.db.levels, l, f) && At(s.db.levels, l + 1, h)
    ensures Newer(f, h)
  {
    hide Newer, Covered;
  }

  lemma OutputsFromInputs(s: State, step: Step, merged: seq<Entry>, e: Entry)
    requires |s.db.levels| == NUM_LEVELS && step.Compact?
    requires CompactionResult(s.db, step.from, step.in0, step.in1, merged, step.outs)
    requires e in FileEntries(step.outs)
    ensures e in FileEntries(step.in0 + step.in1)
  {
    OutputsAreKept(s.db, step.from, step.in0, step.in1, merged, step.outs, e);
  }

  /** Everything that a compaction does not touch. */
  ghost function Beside(db: Db, from: nat, in0: seq<File>, in1: seq<File>): set<Entry> {
    Elems(db.mem) + Elems(ImmEntries(db)) + Others(db.levels, from, in0, in1)
  }

  /** The drops are just, said on the state before. */
  lemma DeletionsSafeIff(s: State, step: Step, merged: seq<Entry>)
    requires Sound(s) && step.Compact? && Chosen(s.db.levels, step.from, step.in0, step.in1, step.lo, step.hi)
    requires CompactionResult(s.db, step.from, step.in0, step.in1, merged, step.outs)
    requires Stored(s.db) == Beside(s.db, step.from, step.in0, step.in1) + FileEntries(step.in0 + step.in1)
    ensures DropsAreJust(Beside(s.db, step.from, step.in0, step.in1), FileEntries(step.in0 + step.in1),
                         FileEntries(step.outs),
                         SmallestSnapshot(s.db))
            <==> DeletionsSafe(s.db, step.from, step.in0, step.in1)
  {
    hide CompactionResult, IsBase, Sound;
    var ins, outs, snapshot := FileEntries(step.in0 + step.in1), FileEntries(step.outs), SmallestSnapshot(s.db);
    var others, beside := Others(s.db.levels, step.from, step.in0, step.in1),
        Beside(s.db, step.from, step.in0, step.in1);
    forall e | e in ins
      ensures NoValueNewest(beside, e.key.user, e.key.sequence) <==> NoValueNewest(others, e.key.user, e.key.sequence)
    {
      MemoryIsNewer(s, step, e);
    }
    if DropsAreJust(beside, ins, outs, snapshot) {
      forall e | e in ins && e.key.kind.Deletion? && IsBase(s.db.levels, step.from, e.key.user)
                 && IsNewest(Stored(s.db), e.key.user, snapshot, e)
        ensures NoValueNewest(others, e.key.user, e.key.sequence)
      {
        DeletionIsDropped(s, step, merged, e);
        assert JustDrop(beside, ins, e, snapshot) && !Hidden(ins, e, snapshot);
      }
    }
    if DeletionsSafe(s.db, step.from, step.in0, step.in1) {
      forall e | e in ins && e !in outs
        ensures JustDrop(beside, ins, e, snapshot)
      {
        DropIsJust(s, step, merged, e);
      }
    }
  }

  /** Memtable entries are newer than every table entry, so a dropped deletion never
      uncovers one. */
  lemma MemoryIsNewer(s: State, step: Step, e: Entry)
    requires Sound(s) && step.Compact? && Chosen(s.db.levels, step.from, step.in0, step.in1, step.lo, step.hi)
    requires e in FileEntries(step.in0 + step.in1)
    ensures var others := Others(s.db.levels, step.from, step.in0, step.in1);
            NoValueNewest(Beside(s.db, step.from, step.in0, step.in1), e.key.user, e.key.sequence)
            <==> NoValueNewest(others, e.key.user, e.key.sequence)
  {
    InputsStored(s, step);
    var u, q := e.key.user, e.key.sequence;
    var others, beside := Others(s.db.levels, step.from, step.in0, step.in1),
        Beside(s.db, step.from, step.in0, step.in1);
    forall x
      ensures IsNewest(beside, u, q, x) <==> IsNewest(others, u, q, x)
    {
    }
  }

  lemma InputsStored(s: State, step: Step)
    requires BaseInv(s) && step.Compact? && Chosen(s.db.levels, step.from, step.in0, step.in1, step.lo, step.hi)
    ensures FileEntries(step.in0 + step.in1) <= TableEntries(s.db.levels)
    ensures AllFromHist(s.hist, FileEntries(step.in0 + step.in1))
  {
    forall e | e in FileEntries(step.in0 + step.in1)
      ensures e in TableEntries(s.db.levels) && FromHist(s.hist, e)
    {
      var f :| f in step.in0 + step.in1 && e in f.entries;
      assert f in s.db.levels[step.from] || f in s.db.levels[step.from + 1];
      assert e in Stored(s.db);
    }
  }

  // ----- every step keeps the reading invariant

  lemma {:induction false} LastWriteOfPrefix(hist: seq<Entry>, more: seq<Entry>, u: UserKey, s: nat)
    requires s <= |hist|
    ensures LastWrite(hist + more, u, s) == LastWrite(hist, u, s)
  {
    if s > 0 {
      LastWriteOfPrefix(hist, more, u, s - 1);
    }
  }

  lemma WriteKeepsShown(hist: seq<Entry>, stored: set<Entry>, es: seq<Entry>, u: UserKey, s: nat)
    requires HistOk(hist + es) && s <= |hist + es| && Shown(hist, stored, u, if s <= |hist| then s else |hist|)
    requires forall e :: e in es ==> FromHist(hist + es, e) && e.key.sequence > |hist|
    requires AllFromHist(hist, stored)
    ensures Shown(hist + es, stored + Elems(es), u, s)
  {
    var i := LastWrite(hist + es, u, s);
    if i >= |hist| {
      assert (hist + es)[i] == es[i - |hist|];
    } else if i >= 0 {
      var t := if s <= |hist| then s else |hist|;
      LastWriteOfPrefix(hist, es, u, t);
      assert LastWrite(hist + es, u, t) == i;
      forall x | x in es && x.key.user == u
        ensures x.key.sequence > s
      {
        assert FromHist(hist + es, x);
      }
      NewestBefore(hist, stored, Elems(es), u, s, t);
    }
  }

  lemma NewestBefore(hist: seq<Entry>, stored: set<Entry>, es: set<Entry>, u: UserKey, s: nat, t: nat)
    requires AllFromHist(hist, stored) && NoneVisible(es, u, s) && t <= s && (t < s ==> t == |hist|)
    ensures NoValueNewest(stored, u, t) ==> NoValueNewest(stored + es, u, s)
  {
    forall x | IsNewest(stored + es, u, s, x)
      ensures IsNewest(stored, u, t, x)
    {
      assert FromHist(hist, x);
    }
  }

  lemma WriteKeepsCovered(hist: seq<Entry>, stored: set<Entry>, floor: nat, es: seq<Entry>)
    requires Covered(hist, stored, floor) && AllFromHist(hist, stored) && HistOk(hist) && floor <= |hist|
    requires |hist| + |es| < MAX_SEQUENCE && IsBatch(es, |hist|)
    ensures Covered(hist + es, stored + Elems(es), floor)
  {
    hide Shown;
    BatchExtendsHistory(hist, es);
    forall u, s | floor <= s <= |hist + es|
      ensures Shown(hist + es, stored + Elems(es), u, s)
    {
      assert Shown(hist, stored, u, if s <= |hist| then s else |hist|);
      WriteKeepsShown(hist, stored, es, u, s);
    }
  }

  /** A compaction keeps the answers of the store if and only if its deletions are
      safe. */
  lemma CompactAnswersIff(s: State, step: Step, s': State)
    requires Inv(s) && step.Compact? && Next(s, step, s')
    ensures s'.floor == SmallestSnapshot(s.db)
    ensures StoreAnswers(s'.hist, Stored(s'.db), s'.floor) <==> DeletionsSafe(s.db, step.from, step.in0, step.in1)
    ensures Covered(s'.hist, Stored(s'.db), s'.floor) <==> DeletionsSafe(s.db, step.from, step.in0, step.in1)
  {
    hide StoreAnswers, Covered, DeletionsSafe, DropsAreJust, HiddenAreDropped, DropsByRule, CompactionResult;
    var merged :| CompactionResult(s.db, step.from, step.in0, step.in1, merged, step.outs);
    ReplacedEntries(s.db.levels, step.from, step.in0, step.in1, step.outs, s'.db.levels);
    var beside := Beside(s.db, step.from, step.in0, step.in1);
    var ins, outs := FileEntries(step.in0 + step.in1), FileEntries(step.outs);
    CompactionDrops(s, step, merged, ins, outs);
    CompactStores(s.db, step, s'.db);
    DeletionsSafeIff(s, step, merged);
    JustDropsIff(s.hist, beside, ins, outs, s.floor, SmallestSnapshot(s.db));
  }

  lemma CompactStores(db: Db, step: Step, db': Db)
    requires step.Compact? && db'.mem == db.mem && db'.imm == db.imm
    requires TableEntries(db.levels) == Others(db.levels, step.from, step.in0,
                                               step.in1) + FileEntries(step.in0 + step.in1)
    requires TableEntries(db'.levels) == Others(db.levels, step.from, step.in0, step.in1) + FileEntries(step.outs)
    ensures Stored(db) == Beside(db, step.from, step.in0, step.in1) + FileEntries(step.in0 + step.in1)
    ensures Stored(db') == Beside(db, step.from, step.in0, step.in1) + FileEntries(step.outs)
  {
    var memory := Elems(db.mem) + Elems(ImmEntries(db));
    UnionShuffle(memory, Others(db.levels, step.from, step.in0, step.in1), FileEntries(step.in0 + step.in1));
    UnionShuffle(memory, Others(db.levels, step.from, step.in0, step.in1), FileEntries(step.outs));
  }

  /** A compaction keeps Get exact if and only if its order is safe. */
  lemma CompactOrderIff(s: State, step: Step, s': State)
    requires Inv(s) && step.Compact? && Next(s, step, s')
    ensures LevelsOrdered(s'.db.levels) <==> LeftAreNewer(s.db.levels, step.from, step.in0, step.outs)
    ensures LevelsOrdered(s'.db.levels) <==> OrderSafe(s.db, step.from, step.in0, step.in1)
  {
    hide LevelsOrdered, LeftAreNewer, OrderSafe, CompactionResult;
    var merged :| CompactionResult(s.db, step.from, step.in0, step.in1, merged, step.outs);
    CompactKeepsBase(s, step, s');
    ReplacedOrderedIff(s.db.levels, step.from, step.in0, step.in1, step.lo, step.hi, step.outs, s'.db.levels);
    OrderSafeIff(s, step, merged);
  }

  /** Get finds the newest stored version of every key at every sequence, and from the
      floor on that version answers like the plain map. */
  ghost predicate ReadsRight(s: State)
    requires |s.db.levels| == NUM_LEVELS
  {
    GetExact(s.db) && StoreAnswers(s.hist, Stored(s.db), s.floor)
  }

  /** What right reads need of a step, said on the state before it. */
  ghost predicate Clean(s: State, step: Step)
    requires |s.db.levels| == NUM_LEVELS
  {
    match step
    case Compact(from, in0, in1, _, _, _) =>
      from + 1 < NUM_LEVELS && OrderSafe(s.db, from, in0, in1) && DeletionsSafe(s.db, from, in0, in1)
    case TrivialMove(from, f) => from + 1 < NUM_LEVELS && LeftAreNewer(s.db.levels, from, [f], [f])
    case _ => true
  }

  lemma InvReadsRight(s: State)
    requires Inv(s)
    ensures ReadsRight(s)
  {
    hide StoreAnswers, GetExact, Covered;
    GetExactIff(s);
    CoveredAnswers(s.hist, Stored(s.db), s.floor);
  }

  lemma CompactIff(s: State, step: Step, s': State)
    requires Inv(s) && step.Compact? && Next(s, step, s')
    ensures Inv(s') <==> Clean(s, step)
    ensures ReadsRight(s') <==> Clean(s, step)
  {
    hide StoreAnswers, GetExact, Covered, LevelsOrdered, OrderSafe, DeletionsSafe, LeftAreNewer;
    CompactKeepsBase(s, step, s');
    CompactAnswersIff(s, step, s');
    CompactOrderIff(s, step, s');
    GetExactIff(s');
  }

  lemma FlushKeepsInv(s: State, level: nat, size: nat, s': State)
    requires Inv(s) && Next(s, Flush(level, size), s')
    ensures Inv(s')
  {
    FlushKeepsBase(s, level, size, s');
    var imm := s.db.imm.value;
    if imm != [] {
      FlushedOrdered(s.db.levels, s.db.nextFile, FileOf(s.db.nextFile, size, imm), level, s'.db.levels);
    }
  }

  /** Get stays exact under a trivial move if and only if no older entry of a moved key
      stays behind. */
  lemma MoveIff(s: State, from: nat, f: File, s': State)
    requires Inv(s) && Next(s, TrivialMove(from, f), s')
    ensures Inv(s') <==> Clean(s, TrivialMove(from, f))
    ensures ReadsRight(s') <==> Clean(s, TrivialMove(from, f))
  {
    hide StoreAnswers, GetExact, Covered, LevelsOrdered, LeftAreNewer;
    MoveKeepsBase(s, from, f, s');
    MoveStores(s, from, f, s');
    assert [f] + [] == [f];
    ReplacedOrderedIff(s.db.levels, from, [f], [], f.smallest.user, f.largest.user, [f], s'.db.levels);
    GetExactIff(s');
    CoveredAnswers(s.hist, Stored(s.db), s.floor);
  }

  lemma MoveStores(s: State, from: nat, f: File, s': State)
    requires Inv(s) && Next(s, TrivialMove(from, f), s')
    ensures Stored(s'.db) == Stored(s.db)
  {
    assert [f] + [] == [f] && f in [f];
    ReplacedEntries(s.db.levels, from, [f], [], [f], s'.db.levels);
  }

  lemma WriteKeepsInv(s: State, es: seq<Entry>, s': State)
    requires Inv(s) && Next(s, Write(es), s')
    ensures Inv(s')
  {
    WriteKeepsBase(s, es, s');
    WriteKeepsCovered(s.hist, Stored(s.db), s.floor, es);
  }

  lemma SwitchKeepsInv(s: State, s': State)
    requires Inv(s) && Next(s, SwitchMemTable, s')
    ensures Inv(s')
  {
    NextKeepsBase(s, SwitchMemTable, s');
    assert Stored(s'.db) == Stored(s.db);
  }

  /** Recovered tables are newer than all others, and the later ones newer than the
      earlier ones, as level 0 needs it. */
  lemma ReopenedOrdered(s: State, files: seq<File>, first: nat, s': State)
    requires Inv(s) && Next(s, Reopen(files, first), s')
    ensures LevelsOrdered(s'.db.levels)
  {
    var levels, levels' := s.db.levels, s'.db.levels;
    forall g, l, f | g in files && At(levels, l, f)
      ensures Newer(g, f) && g.number > f.number
    {
      RecoveredIsNewer(s.db, files, g, l, f);
    }
    forall l, m, f, g | At(levels', l, f) && At(levels', m, g) && (l < m || (l == m == 0 && f.number > g.number))
      ensures Newer(f, g)
    {
      ReopenOrigin(s.db, files, first, s'.db, l, f);
      ReopenOrigin(s.db, files, first, s'.db, m, g);
      if f in files && g in files {
        LaterIsNewer(files, first, s'.db.nextFile, f, g);
      }
    }
    assert forall f :: f in levels'[0] ==> At(levels', 0, f);
  }

  lemma RecoveredIsNewer(db: Db, files: seq<File>, g: File, l: int, f: File)
    requires AllNewer(Elems(db.mem) + Elems(ImmEntries(db)), TableEntries(db.levels))
    requires (forall e :: e in Contents(files) <==> e in db.mem || e in ImmEntries(db)) && g in files
             && At(db.levels, l, f)
    ensures Newer(g, f)
  {
    ContentsMembers(files);
    forall e, x | e in g.entries && x in f.entries
      ensures e.key.sequence > x.key.sequence
    {
      assert e in Contents(files) && x in TableEntries(db.levels);
    }
  }

  lemma LaterIsNewer(files: seq<File>, first: nat, limit: nat, f: File, g: File)
    requires NumbersFrom(files, first, limit) && OldestFirst(files) && f in files && g in files && f.number > g.number
    ensures Newer(f, g)
  {
    var i :| 0 <= i < |files| && files[i] == f;
    var j :| 0 <= j < |files| && files[j] == g;
    assert AllOlder(g, f);
  }

  lemma ReopenKeepsInv(s: State, files: seq<File>, first: nat, s': State)
    requires Inv(s) && Next(s, Reopen(files, first), s')
    ensures Inv(s')
  {
    ReopenKeepsBase(s, files, first, s');
    ReopenedOrdered(s, files, first, s');
  }

  lemma SnapshotKeepsInv(s: State, step: Step, s': State)
    requires Inv(s) && (step.GetSnapshot? || step.ReleaseSnapshot?) && Next(s, step, s')
    ensures Inv(s')
  {
    NextKeepsBase(s, step, s');
    assert Stored(s'.db) == Stored(s.db);
  }

  /** Reads stay right in a step if and only if the step is clean. */
  lemma NextIff(s: State, step: Step, s': State)
    requires Inv(s) && Next(s, step, s')
    ensures Inv(s') <==> Clean(s, step)
    ensures ReadsRight(s') <==> Clean(s, step)
  {
    hide Inv, ReadsRight, Next;
    match step
    case Write(es) => WriteKeepsInv(s, es, s'); InvReadsRight(s');
    case SwitchMemTable => SwitchKeepsInv(s, s'); InvReadsRight(s');
    case Flush(level, size) => FlushKeepsInv(s, level, size, s'); InvReadsRight(s');
    case TrivialMove(from, f) => MoveIff(s, from, f, s');
    case Compact(_, _, _, _, _, _) => CompactIff(s, step, s');
    case GetSnapshot => SnapshotKeepsInv(s, step, s'); InvReadsRight(s');
    case ReleaseSnapshot(_) => SnapshotKeepsInv(s, step, s'); InvReadsRight(s');
    case Reopen(files, first) => ReopenKeepsInv(s, files, first, s'); InvReadsRight(s');
  }

  lemma NextKeepsInv(s: State, step: Step, s': State)
    requires Inv(s) && Next(s, step, s') && Clean(s, step)
    ensures Inv(s')
  {
    NextIff(s, step, s');
  }

  lemma InitInv()
    ensures Inv(INIT)
  {
    InitBase();
    assert forall l :: 0 <= l < NUM_LEVELS ==> INIT.db.levels[l] == [];
    assert TableEntries(INIT.db.levels) == {};
    assert Stored(INIT.db) == {};
    assert LevelsOrdered(INIT.db.levels);
    assert Covered([], {}, 0);
  }

  /** Over every run: reads are right in all states up to the `i`th if and only if all
      steps up to there are clean. */
  lemma {:induction false} RunsReadRightIff(states: seq<State>, steps: seq<Step>, i: nat)
    requires IsRun(states, steps) && i < |states|
    ensures forall j :: 0 <= j <= i ==> |states[j].db.levels| == NUM_LEVELS
    ensures (forall j :: 0 <= j <= i ==> ReadsRight(states[j]))
            <==> (forall j :: 0 <= j < i ==> Clean(states[j], steps[j]))
    ensures (forall j :: 0 <= j < i ==> Clean(states[j], steps[j])) ==> Inv(states[i])
  {
    hide Inv, ReadsRight, Next, Clean;
    forall j | 0 <= j <= i
      ensures |states[j].db.levels| == NUM_LEVELS
    {
      LevelsStayDisjoint(states, steps, j);
    }
    if i == 0 {
      InitInv();
      InvReadsRight(INIT);
    } else {
      RunsReadRightIff(states, steps, i - 1);
      if forall j :: 0 <= j < i - 1 ==> Clean(states[j], steps[j]) {
        NextIff(states[i - 1], steps[i - 1], states[i]);
      }
    }
  }

  /** In every state of a clean run, Get at the latest sequence or at any live
      snapshot answers what a plain map would that saw the writes up to there. */
  lemma GetOverRuns(states: seq<State>, steps: seq<Step>, i: nat, u: UserKey, at: nat)
    requires IsRun(states, steps) && i < |states|
    requires forall j :: 0 <= j < i ==> Clean(states[j], steps[j])
    requires at == states[i].db.lastSequence || at in states[i].db.snapshots
    ensures |states[i].db.levels| == NUM_LEVELS && at <= |states[i].hist|
    ensures AnswerOf(DbGet(states[i].db, u, at)) == Lookup(Replay(states[i].hist[..at]), u)
  {
    RunsReadRightIff(states, steps, i);
    GetIsPlainMap(states[i], u, at);
  }
}
