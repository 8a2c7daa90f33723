/** Runs whose compactions all start with no live snapshot: no user key ever lies
    in two files of one level, so every step is clean and reads are exact. */
module LsmNoSnapshot {
  import opened Format
  import opened Version
  import opened Lsm
  import opened LsmLevels
  import opened LsmReads
  import opened LsmDrops
  import opened LsmRuns

  // ----- a simple condition that makes a step clean

  /** No file left behind at an input level holds an older entry of a chosen key. */
  ghost predicate NoOlderLeft(levels: seq<seq<File>>, from: nat, in0: seq<File>, in1: seq<File>)
    requires |levels| == NUM_LEVELS && from + 1 < NUM_LEVELS
  {
    && (forall f, h :: f in levels[from] && f !in in0 && h in in0 ==> Newer(f, h))
    && (forall f, h :: f in levels[from + 1] && f !in in1 && h in in1 ==> Newer(f, h))
  }

  /** Everything stored beside the inputs is newer than an input of its key, or
      lies at least two levels below the upper inputs. */
  lemma OthersNewerOrDeeper(levels: seq<seq<File>>, nextFile: nat, from: nat, in0: seq<File>, in1: seq<File>,
                            lo: UserKey, hi: UserKey, x: Entry, e: Entry)
    requires LevelsOk(levels, nextFile) && LevelsOrdered(levels) && Chosen(levels, from, in0, in1, lo, hi)
    requires NoOlderLeft(levels, from, in0, in1)
    requires x in Others(levels, from, in0, in1) && e in FileEntries(in0 + in1) && x.key.user == e.key.user
    ensures x.key.sequence > e.key.sequence || !IsBase(levels, from, e.key.user)
  {
    var l, f :| 0 <= l < |levels| && f in levels[l] && x in f.entries
                && !(l == from && f in in0) && !(l == from + 1 && f in in1);
    var h :| h in in0 + in1 && e in h.entries;
    assert At(levels, l, f);
    InRange(f, x);
    if h in in0 {
      assert At(levels, from, h);
      InRange(h, e);
      if l <= from {
        UnchosenAbove(levels, from, in0, in1, l, f, from, h);
      }
    } else {
      assert At(levels, from + 1, h);
      if l <= from + 1 {
        UnchosenAbove(levels, from, in0, in1, l, f, from + 1, h);
      }
    }
  }

  lemma UnchosenAbove(levels: seq<seq<File>>, from: nat, in0: seq<File>, in1: seq<File>, l: nat, f: File, m: nat,
                      h: File)
    requires LevelsOrdered(levels) && from + 1 < NUM_LEVELS && NoOlderLeft(levels, from, in0, in1) && l <= m
    requires At(levels, l, f) && !(l == from && f in in0) && !(l == from + 1 && f in in1)
    requires At(levels, m, h) && ((m == from && h in in0) || (m == from + 1 && h in in1))
    ensures Newer(f, h)
  {
    hide Newer;
  }

  lemma LevelsOfInv(s: State)
    requires Inv(s)
    ensures LevelsOk(s.db.levels, s.db.nextFile) && LevelsOrdered(s.db.levels)
  {
  }

  lemma NothingOlderIsClean(s: State, from: nat, in0: seq<File>, in1: seq<File>, lo: UserKey, hi: UserKey)
    requires Inv(s) && Chosen(s.db.levels, from, in0, in1, lo, hi) && NoOlderLeft(s.db.levels, from, in0, in1)
    ensures OrderSafe(s.db, from, in0, in1) && DeletionsSafe(s.db, from, in0, in1)
  {
    hide Vanishes, IsBase, FileEntries, Others;
    hide BaseInv, Covered;
    LevelsOfInv(s);
    forall e, x | e in FileEntries(in0 + in1) && IsBase(s.db.levels, from, e.key.user)
                  && IsNewest(Others(s.db.levels, from, in0, in1), e.key.user, e.key.sequence, x)
      ensures false
    {
      OthersNewerOrDeeper(s.db.levels, s.db.nextFile, from, in0, in1, lo, hi, x, e);
    }
  }

  // ----- keys in one file of a level

  ghost predicate KeysOnce(levels: seq<seq<File>>) {
    && |levels| == NUM_LEVELS
    && forall l :: 1 <= l < NUM_LEVELS ==> UserDisjoint(levels[l])
  }

  lemma KeysOnceIsClean(levels: seq<seq<File>>, nextFile: nat, from: nat, in0: seq<File>, in1: seq<File>, lo: UserKey,
                        hi: UserKey)
    requires LevelsOk(levels, nextFile) && KeysOnce(levels) && Chosen(levels, from, in0, in1, lo, hi)
    ensures NoOlderLeft(levels, from, in0, in1)
  {
    forall f, h | f in levels[from] && f !in in0 && h in in0
      ensures Newer(f, h)
    {
      assert At(levels, from, f) && At(levels, from, h);
      NoSharedKey(levels, nextFile, from, f, h);
    }
    forall f, h | f in levels[from + 1] && f !in in1 && h in in1
      ensures Newer(f, h)
    {
      NoSharedKey(levels, nextFile, from + 1, f, h);
    }
  }

  lemma NoSharedKey(levels: seq<seq<File>>, nextFile: nat, l: nat, f: File, h: File)
    requires LevelsOk(levels, nextFile) && KeysOnce(levels) && At(levels, l, f) && At(levels, l, h) && f != h
    requires l > 0 || UserBefore(f, h) || UserBefore(h, f)
    ensures Newer(f, h)
  {
    if l > 0 {
      SameLevelUser(levels[l], f, h);
    }
    forall e, x | e in f.entries && x in h.entries
      ensures e.key.user != x.key.user
    {
      InRange(f, e);
      InRange(h, x);
    }
  }

  lemma FlushKeepsKeysOnce(levels: seq<seq<File>>, nextFile: nat, f: File, level: nat, levels': seq<seq<File>>)
    requires LevelsOk(levels, nextFile) && KeysOnce(levels)
    requires NewFile(levels, nextFile, f) && FlushTo(levels, f, level, levels')
    ensures KeysOnce(levels')
  {
    forall l | 1 <= l < NUM_LEVELS
      ensures UserDisjoint(levels'[l])
    {
      if l != level {
        assert levels'[l] == levels[l];
      } else {
        assert forall g :: g in levels'[l] ==> g == f || At(levels, l, g);
        forall g, h | g in levels'[l] && h in levels'[l] && g != h
          ensures UserBefore(g, h) || UserBefore(h, g)
        {
          if g != f && h != f {
            SameLevelUser(levels[l], g, h);
          } else {
            var other := if g == f then h else g;
            assert !Overlaps(other, Some(f.smallest.user), Some(f.largest.user));
          }
        }
        OrderedUserSeparated(levels'[l]);
      }
    }
  }

  lemma ReplacedUserDisjoint(levels: seq<seq<File>>, nextFile: nat, from: nat, in0: seq<File>, in1: seq<File>,
                             lo: UserKey, hi: UserKey, outs: seq<File>, limit: nat, levels': seq<seq<File>>)
    requires LevelsOk(levels, nextFile) && KeysOnce(levels) && Chosen(levels, from, in0, in1, lo, hi)
    requires OutsOk(levels, in0 + in1, outs, limit) && UserDisjoint(outs)
    requires Replaced(levels, from, in0, in1, outs, levels')
    ensures UserDisjoint(levels'[from + 1])
    ensures from > 0 ==> UserDisjoint(levels'[from])
  {
    assert forall f :: f in levels'[from + 1] ==> f in outs || At(levels, from + 1, f);
    forall f, g | f in levels'[from + 1] && g in levels'[from + 1] && f != g
      ensures UserBefore(f, g) || UserBefore(g, f)
    {
      if f in outs && g in outs {
        SameLevelUser(outs, f, g);
      } else if f in outs {
        OutUserBeside(levels, nextFile, from, in0, in1, lo, hi, outs, limit, g, f);
      } else if g in outs {
        OutUserBeside(levels, nextFile, from, in0, in1, lo, hi, outs, limit, f, g);
      } else {
        SameLevelUser(levels[from + 1], f, g);
      }
    }
    OrderedUserSeparated(levels'[from + 1]);
    if from > 0 {
      assert forall f :: f in levels'[from] ==> At(levels, from, f);
      forall f, g | f in levels'[from] && g in levels'[from] && f != g
        ensures UserBefore(f, g) || UserBefore(g, f)
      {
        SameLevelUser(levels[from], f, g);
      }
      OrderedUserSeparated(levels'[from]);
    }
  }

  lemma OutUserBeside(levels: seq<seq<File>>, nextFile: nat, from: nat, in0: seq<File>, in1: seq<File>,
                      lo: UserKey, hi: UserKey, outs: seq<File>, limit: nat, g: File, o: File)
    requires LevelsOk(levels, nextFile) && KeysOnce(levels) && Chosen(levels, from, in0, in1, lo, hi)
    requires OutsOk(levels, in0 + in1, outs, limit)
    requires g in levels[from + 1] && g !in in1 && o in outs
    ensures UserBefore(g, o) || UserBefore(o, g)
  {
    var ins := in0 + in1;
    assert At(levels, from + 1, g);
    var first, last := o.entries[0], o.entries[|o.entries| - 1];
    assert first in o.entries && last in o.entries;
    forall h, e | h in ins && e in h.entries
      ensures g.largest.user < lo ==> g.largest.user < e.key.user
      ensures g.smallest.user > hi ==> e.key.user < g.smallest.user
    {
      if h in in0 {
        assert At(levels, from, h);
        InRange(h, e);
      } else {
        assert At(levels, from + 1, h);
        InRange(h, e);
        SameLevelUser(levels[from + 1], g, h);
      }
    }
  }


  /** No user key is cut between two outputs. */
  ghost predicate NoSplit(step: Step) {
    step.Compact? ==> UserDisjoint(step.outs)
  }

  lemma ReplacedKeysOnce(levels: seq<seq<File>>, nextFile: nat, from: nat, in0: seq<File>, in1: seq<File>,
                         lo: UserKey, hi: UserKey, outs: seq<File>, limit: nat, levels': seq<seq<File>>)
    requires LevelsOk(levels, nextFile) && KeysOnce(levels) && Chosen(levels, from, in0, in1, lo, hi)
    requires OutsOk(levels, in0 + in1, outs, limit) && UserDisjoint(outs)
    requires Replaced(levels, from, in0, in1, outs, levels')
    ensures KeysOnce(levels')
  {
    ReplacedUserDisjoint(levels, nextFile, from, in0, in1, lo, hi, outs, limit, levels');
    forall l | 1 <= l < NUM_LEVELS
      ensures UserDisjoint(levels'[l])
    {
      if l != from && l != from + 1 {
        assert levels'[l] == levels[l];
      }
    }
  }

  lemma NextKeepsKeysOnce(s: State, step: Step, s': State)
    requires Inv(s) && KeysOnce(s.db.levels) && Next(s, step, s') && NoSplit(step)
    ensures KeysOnce(s'.db.levels) && Clean(s, step)
  {
    match step
    case Flush(level, size) =>
      FlushKeepsBase(s, level, size, s');
      var imm := s.db.imm.value;
      if imm != [] {
        FlushKeepsKeysOnce(s.db.levels, s.db.nextFile, FileOf(s.db.nextFile, size, imm), level, s'.db.levels);
      }
    case TrivialMove(from, f) =>
      MoveKeepsBase(s, from, f, s');
      assert [f] + [] == [f];
      KeysOnceIsClean(s.db.levels, s.db.nextFile, from, [f], [], f.smallest.user, f.largest.user);
      ReplacedKeysOnce(s.db.levels, s.db.nextFile, from, [f], [], f.smallest.user, f.largest.user, [f],
                       s.db.nextFile, s'.db.levels);
    case Compact(from, in0, in1, lo, hi, outs) =>
      CompactKeepsBase(s, step, s');
      KeysOnceIsClean(s.db.levels, s.db.nextFile, from, in0, in1, lo, hi);
      NothingOlderIsClean(s, from, in0, in1, lo, hi);
      ReplacedKeysOnce(s.db.levels, s.db.nextFile, from, in0, in1, lo, hi, outs, s'.db.nextFile, s'.db.levels);
    case _ =>
  }

  /** Two kept entries of one user key: the newer is above the snapshot. */
  lemma KeptTwice(s: State, step: Step, merged: seq<Entry>, p: Entry, x: Entry)
    requires BaseInv(s) && step.Compact? && Chosen(s.db.levels, step.from, step.in0, step.in1, step.lo, step.hi)
    requires CompactionResult(s.db, step.from, step.in0, step.in1, merged, step.outs)
    requires SmallestSnapshot(s.db) < MAX_SEQUENCE
    requires p in FileEntries(step.outs) && x in FileEntries(step.outs) && p.key.user == x.key.user
             && Less(p.key, x.key)
    ensures p.key.sequence > SmallestSnapshot(s.db) && FromHist(s.hist, p)
  {
    hide LevelsOk, HistOk, IsBase, Stored, FileEntries;
    var snapshot := SmallestSnapshot(s.db);
    MergedFromHist(s, step, merged);
    OutputsAreKept(s.db, step.from, step.in0, step.in1, merged, step.outs, p);
    OutputsAreKept(s.db, step.from, step.in0, step.in1, merged, step.outs, x);
    assert FromHist(s.hist, p) && FromHist(s.hist, x);
    var k :| 0 <= k < |merged| && merged[k] == x && !Dropped(merged, k, snapshot, s.db.levels, step.from);
    RuleA(merged, k, snapshot, s.hist);
  }

  /** A compaction that starts with no live snapshot keeps at most one entry per
      user key, so it cannot split one. */
  lemma NoSnapshotNoSplit(s: State, step: Step, s': State)
    requires Inv(s) && step.Compact? && Next(s, step, s') && s.db.snapshots == []
    ensures NoSplit(step)
  {
    hide CompactionResult, Covered, LevelsOrdered;
    var merged :| CompactionResult(s.db, step.from, step.in0, step.in1, merged, step.outs);
    CompactKeepsBase(s, step, s');
    forall i, j | 0 <= i < j < |step.outs|
      ensures UserBefore(step.outs[i], step.outs[j])
    {
      var f, g := step.outs[i], step.outs[j];
      assert FileOk(f) && FileOk(g) && Before(f, g);
      var p, x := f.entries[|f.entries| - 1], g.entries[0];
      assert p in f.entries && x in g.entries;
      assert p in FileEntries(step.outs) && x in FileEntries(step.outs);
      if p.key.user == x.key.user {
        KeptTwice(s, step, merged, p, x);
      }
    }
  }

  lemma InitKeysOnce()
    ensures Inv(INIT) && KeysOnce(INIT.db.levels)
  {
    InitInv();
  }

  /** In every run whose compactions start with no live snapshot (or at least cut
      no user key), no user key lies in two files of one level above 0. */
  lemma {:induction false} KeysStayOnce(states: seq<State>, steps: seq<Step>, i: nat)
    requires IsRun(states, steps) && i < |states|
    requires forall j :: 0 <= j < i && steps[j].Compact? ==> states[j].db.snapshots == [] || NoSplit(steps[j])
    ensures Inv(states[i]) && KeysOnce(states[i].db.levels)
    ensures forall j :: 0 <= j < i ==> |states[j].db.levels| == NUM_LEVELS && Clean(states[j], steps[j])
  {
    hide Inv, Clean, Next, KeysOnce;
    if i == 0 {
      InitKeysOnce();
    } else {
      KeysStayOnce(states, steps, i - 1);
      var s, step, s' := states[i - 1], steps[i - 1], states[i];
      if step.Compact? && s.db.snapshots == [] {
        NoSnapshotNoSplit(s, step, s');
      }
      NextKeepsKeysOnce(s, step, s');
      NextKeepsInv(s, step, s');
    }
  }

  /** In those runs Get returns the newest write, always. */
  lemma GetReturnsNewest(states: seq<State>, steps: seq<Step>, i: nat, u: UserKey, at: nat)
    requires IsRun(states, steps) && i < |states|
    requires forall j :: 0 <= j < i && steps[j].Compact? ==> states[j].db.snapshots == [] || NoSplit(steps[j])
    requires at == states[i].db.lastSequence || at in states[i].db.snapshots
    ensures |states[i].db.levels| == NUM_LEVELS && at <= |states[i].hist|
    ensures AnswerOf(DbGet(states[i].db, u, at)) == Lookup(Replay(states[i].hist[..at]), u)
  {
    KeysStayOnce(states, steps, i);
    GetOverRuns(states, steps, i, u, at);
  }
}
