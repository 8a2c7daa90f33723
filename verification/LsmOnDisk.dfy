/** The tree and the disk: compactions of the tree are the ones that the durability
    model allows, and its recovery is the tree's reopening. */
module LsmOnDisk {
  import opened Format
  import opened Version
  import Builder
  import opened Lsm
  import opened LsmLevels
  import opened LsmReads
  import opened LsmDrops
  import opened LsmRuns
  import opened Durability
  import opened DurabilityInv
  import DurabilityRuns

  /** The table files of a list are on disk under their numbers. */
  ghost predicate OnDisk(tables: map<nat, set<Entry>>, files: seq<File>) {
    forall f :: f in files ==> f.number in tables && tables[f.number] == Elems(f.entries)
  }

  ghost predicate LevelsOnDisk(tables: map<nat, set<Entry>>, levels: seq<seq<File>>) {
    forall l, f :: At(levels, l, f) ==> f.number in tables && tables[f.number] == Elems(f.entries)
  }

  ghost function VersionNumbers(levels: seq<seq<File>>): set<nat> {
    set l, f | 0 <= l < |levels| && f in levels[l] :: f.number
  }

  lemma TablesOfFiles(tables: map<nat, set<Entry>>, files: seq<File>)
    requires OnDisk(tables, files)
    ensures Tables(tables, Builder.Numbers(files)) == FileEntries(files)
  {
    forall e | e in FileEntries(files)
      ensures e in Tables(tables, Builder.Numbers(files))
    {
      var f :| f in files && e in f.entries;
      assert f.number in Builder.Numbers(files) && e in tables[f.number];
    }
  }

  lemma TablesOfOthers(tables: map<nat, set<Entry>>, levels: seq<seq<File>>, from: nat, in0: seq<File>, in1: seq<File>)
    requires |levels| == NUM_LEVELS && from + 1 < NUM_LEVELS && NumbersOnce(levels) && LevelsOnDisk(tables, levels)
    requires (forall f :: f in in0 ==> f in levels[from]) && (forall f :: f in in1 ==> f in levels[from + 1])
    ensures Tables(tables, VersionNumbers(levels) - Builder.Numbers(in0 + in1)) == Others(levels, from, in0, in1)
  {
    forall e | e in Tables(tables, VersionNumbers(levels) - Builder.Numbers(in0 + in1))
      ensures e in Others(levels, from, in0, in1)
    {
      var n :| n in VersionNumbers(levels) - Builder.Numbers(in0 + in1) && n in tables && e in tables[n];
      var l, f :| 0 <= l < |levels| && f in levels[l] && f.number == n;
      assert At(levels, l, f);
      assert f !in in0 + in1;
    }
    forall e | e in Others(levels, from, in0, in1)
      ensures e in Tables(tables, VersionNumbers(levels) - Builder.Numbers(in0 + in1))
    {
      var l, f :| 0 <= l < |levels| && f in levels[l] && e in f.entries && !(l == from && f in in0)
          && !(l == from + 1 && f in in1);
      assert At(levels, l, f) && e in tables[f.number];
      assert f.number in VersionNumbers(levels);
      assert f.number !in Builder.Numbers(in0 + in1) by {
        if g :| g in in0 + in1 && g.number == f.number {
          assert At(levels, if g in in0 then from else from + 1, g);
        }
      }
    }
  }

  /** Writes that no read at the snapshot sees change nothing about the drops. */
  lemma LaterWrites(others: set<Entry>, later: set<Entry>, ins: set<Entry>, outs: set<Entry>, snapshot: nat)
    requires DropsAreJust(others, ins, outs, snapshot) && forall e :: e in later ==> e.key.sequence > snapshot
    ensures DropsAreJust(others + later, ins, outs, snapshot)
  {
    forall e | e in ins && e !in outs
      ensures JustDrop(others + later, ins, e, snapshot)
    {
      assert JustDrop(others, ins, e, snapshot);
      if e.key.sequence <= snapshot {
        forall x
          ensures IsNewest(others + later, e.key.user, e.key.sequence, x)
                  <==> IsNewest(others, e.key.user, e.key.sequence, x)
        {
        }
        assert IsNewest(others + later + ins, e.key.user, snapshot, e)
               ==> IsNewest(others + ins, e.key.user, snapshot, e);
      }
    }
  }

  /** A compaction of the tree whose deletions are safe passes the guard of
      PrepareCompaction.  The logs hold the memtables and the group in flight. */
  lemma CompactionIsJustified(s: State, step: Step, merged: seq<Entry>, d: Disk, log: nat, flying: set<Entry>)
    requires Inv(s) && step.Compact? && Chosen(s.db.levels, step.from, step.in0, step.in1, step.lo, step.hi)
    requires DeletionsSafe(s.db, step.from, step.in0, step.in1)
    requires CompactionResult(s.db, step.from, step.in0, step.in1, merged, step.outs)
    requires LevelsOnDisk(d.tables, s.db.levels) && OnDisk(d.tables, step.outs)
    requires Logs(d.logs, log) == Elems(s.db.mem) + Elems(ImmEntries(s.db)) + flying
    requires forall e :: e in flying ==> e.key.sequence > s.db.lastSequence
    ensures Justified(d, VersionNumbers(s.db.levels), log, Builder.Numbers(step.in0 + step.in1),
                      Builder.Numbers(step.outs), SmallestSnapshot(s.db))
    ensures SmallestSnapshot(s.db) <= s.db.lastSequence
  {
    hide CompactionResult, DeletionsSafe, DropsAreJust, HiddenAreDropped, DropsByRule;
    var levels, ins := s.db.levels, step.in0 + step.in1;
    forall f | f in ins
      ensures f.number in d.tables && d.tables[f.number] == Elems(f.entries)
    {
      assert At(levels, if f in step.in0 then step.from else step.from + 1, f);
    }
    TablesOfFiles(d.tables, ins);
    TablesOfFiles(d.tables, step.outs);
    TablesOfOthers(d.tables, levels, step.from, step.in0, step.in1);
    CompactionDrops(s, step, merged, FileEntries(ins), FileEntries(step.outs));
    InputsAndOthers(s.db, step);
    DeletionsSafeIff(s, step, merged);
    var beside, others := Beside(s.db, step.from, step.in0, step.in1), Others(levels, step.from, step.in0, step.in1);
    LaterWrites(beside, flying, FileEntries(ins), FileEntries(step.outs), SmallestSnapshot(s.db));
    assert beside + flying == others + Logs(d.logs, log);
  }

  lemma InputsAndOthers(db: Db, step: Step)
    requires step.Compact? && Chosen(db.levels, step.from, step.in0, step.in1, step.lo, step.hi)
    ensures Stored(db) == Beside(db, step.from, step.in0, step.in1) + FileEntries(step.in0 + step.in1)
  {
    var others, ins := Others(db.levels, step.from, step.in0, step.in1), FileEntries(step.in0 + step.in1);
    forall e
      ensures e in TableEntries(db.levels) <==> e in others || e in ins
    {
      if e in ins {
        var f :| f in step.in0 + step.in1 && e in f.entries;
        assert f in db.levels[step.from] || f in db.levels[step.from + 1];
      }
    }
  }

  // ----- recovery

  /** The tree as the crash left it: its tables are those of the manifest, and the logs
      to replay hold its memtables. */
  ghost predicate TreeOnDisk(db: Db, d: Disk, v: Proc) {
    && |db.levels| == NUM_LEVELS && LevelsOnDisk(d.tables, db.levels) && VersionNumbers(db.levels) == v.files
    && Logs(d.logs, v.log) == Elems(db.mem) + Elems(ImmEntries(db))
  }

  /** The recovered tables, in the order of their numbers. */
  ghost predicate RecoveredFiles(files: seq<File>, d: Disk, built: set<nat>) {
    && OnDisk(d.tables, files) && Builder.Numbers(files) == built && (forall f :: f in files ==> FileOk(f))
    && forall i, j :: 0 <= i < j < |files| ==> files[i].number < files[j].number
  }

  ghost function ReopenedDb(db: Db, zero: seq<File>, next: nat): Db
    requires |db.levels| == NUM_LEVELS
  {
    Db([], None, db.levels[0 := zero], db.lastSequence, [], next)
  }

  lemma FilesInOrder(files: seq<File>, d: Disk, built: set<nat>)
    requires RecoveredFiles(files, d, built) && TablesOldestFirst(d.tables, built)
    ensures OldestFirst(files)
  {
    hide FileOk;
    forall i, j | 0 <= i < j < |files|
      ensures AllOlder(files[i], files[j])
    {
      assert files[i] in files && files[j] in files;
      assert files[i].number in built && files[j].number in built;
      forall x, y | x in files[i].entries && y in files[j].entries
        ensures x.key.sequence < y.key.sequence
      {
        assert x in d.tables[files[i].number] && y in d.tables[files[j].number];
      }
    }
  }

  /** When every log is replayed, the recovery of the durability model is a reopening of
      the tree: the same tables, in the order that level 0 is searched. */
  lemma RecoveryIsReopen(states: seq<Sys>, events: seq<Event>, i: nat, s: State, files: seq<File>, zero: seq<File>)
    requires DurabilityRuns.IsRun(states, events) && i < |states| && states[i].proc.Some?
    requires states[i].proc.value.job.Recovering? && states[i].proc.value.job.todo == []
    requires TreeOnDisk(s.db, states[i].disk, states[i].proc.value)
    requires RecoveredFiles(files, states[i].disk, states[i].proc.value.job.built)
    requires Updated(s.db.levels[0], [], files, zero)
    ensures var v := states[i].proc.value;
            var s' := State(ReopenedDb(s.db, zero, v.next), s.hist, s.floor);
            && Next(s, Reopen(files, v.manifest), s')
            && VersionNumbers(s'.db.levels) == v.files + v.job.built
  {
    hide SysInv, TreeOnDisk, RecoveredFiles, Updated, Next, DurabilityRuns.IsRun;
    DurabilityRuns.RunsKeep(states, events, i);
    ReplayedLogs(states[i], states[i].proc.value);
    IsReopen(s, states[i].disk, states[i].proc.value, files, zero);
  }

  /** What recovery has built once all logs are replayed. */
  ghost predicate Replayed(d: Disk, v: Proc, built: set<nat>) {
    && (forall n :: n in v.files ==> n < v.manifest) && (forall n :: n in built ==> v.manifest < n < v.next)
    && v.manifest < v.next && Tables(d.tables, built) == Logs(d.logs, v.log) && TablesOldestFirst(d.tables, built)
  }

  lemma ReplayedLogs(s: Sys, v: Proc)
    requires SysInv(s) && s.proc == Some(v) && v.job.Recovering? && v.job.todo == []
    ensures Replayed(s.disk, v, v.job.built)
  {
    hide Complete, LogsSorted, TablesOldestFirst;
    AllReplayed(s.disk.logs, v.log, v.job.pos);
  }

  lemma IsReopen(s: State, d: Disk, v: Proc, files: seq<File>, zero: seq<File>)
    requires v.job.Recovering? && Replayed(d, v, v.job.built)
    requires TreeOnDisk(s.db, d, v) && RecoveredFiles(files, d, v.job.built) && Updated(s.db.levels[0], [], files, zero)
    ensures var s' := State(ReopenedDb(s.db, zero, v.next), s.hist, s.floor);
            Next(s, Reopen(files, v.manifest), s') && VersionNumbers(s'.db.levels) == v.files + v.job.built
  {
    hide FileOk, TablesOldestFirst, OldestFirst, Updated;
    FilesInOrder(files, d, v.job.built);
    TablesOfFiles(d.tables, files);
    ContentsMembers(files);
    forall e
      ensures e in Contents(files) <==> e in s.db.mem || e in ImmEntries(s.db)
    {
      assert e in Contents(files) <==> e in FileEntries(files);
      assert e in Logs(d.logs, v.log) <==> e in s.db.mem || e in ImmEntries(s.db);
    }
    forall l, f | At(s.db.levels, l, f)
      ensures f.number < v.manifest
    {
      assert f.number in VersionNumbers(s.db.levels);
    }
    forall k | 0 <= k < |files|
      ensures v.manifest <= files[k].number < v.next
    {
      assert files[k] in files && files[k].number in v.job.built;
    }
    NewNumbers(s.db.levels, files, zero);
  }

  lemma AllReplayed(logs: map<nat, seq<Entry>>, from: nat, pos: nat)
    ensures DonePart(logs, from, [], pos) == Logs(logs, from)
  {
  }

  lemma NewNumbers(levels: seq<seq<File>>, files: seq<File>, zero: seq<File>)
    requires |levels| == NUM_LEVELS && Updated(levels[0], [], files, zero)
    ensures VersionNumbers(levels[0 := zero]) == VersionNumbers(levels) + Builder.Numbers(files)
  {
    var levels' := levels[0 := zero];
    forall n
      ensures n in VersionNumbers(levels') <==> n in VersionNumbers(levels) || n in Builder.Numbers(files)
    {
      if n in VersionNumbers(levels) {
        var l, f :| 0 <= l < |levels| && f in levels[l] && f.number == n;
        assert f in levels'[l];
      }
      if n in Builder.Numbers(files) {
        var f :| f in files && f.number == n;
        assert f in levels'[0];
      }
    }
  }
}
