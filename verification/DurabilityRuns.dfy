/** Every step of the durability model keeps its invariant, so in every run, with
    crashes anywhere, recovery yields exactly the acknowledged writes and at most
    the group in flight. */
module DurabilityRuns {
  import opened Format
  import opened Lsm
  import opened LsmReads
  import opened LsmDrops
  import opened LsmRuns
  import opened Durability
  import opened DurabilityInv

  // ----- moving entries from logs to tables

  /** Log entries `g1` become table entries; the newer `g2` stay in logs. */
  lemma CompleteMove(t: set<Entry>, g1: set<Entry>, g2: set<Entry>, last: nat, last': nat, full: seq<Entry>, floor: nat)
    requires Complete(t, g1 + g2, last, full, floor) && AllNewer(g2, g1)
    requires last' <= |full| && forall e :: e in t + g1 ==> e.key.sequence <= last'
    requires forall i :: last' <= i < |full| ==> full[i] in g2
    ensures Complete(t + g1, g2, last', full, floor)
  {
    assert t + (g1 + g2) == t + g1 + g2;
  }

  lemma SplitLogs(logs: map<nat, seq<Entry>>, from: nat, logfile: nat)
    requires logfile in logs && from <= logfile && forall l :: l in logs ==> l <= logfile
    ensures Logs(logs, from) == LogsBelow(logs, from, logfile) + Elems(logs[logfile])
    ensures Logs(logs, logfile) == Elems(logs[logfile])
    ensures LogsBelow(logs, logfile, logfile) == {}
  {
    forall e | e in logs[logfile]
      ensures e in Logs(logs, from) && e in Logs(logs, logfile)
    {
    }
  }

  lemma LogsBelowSame(logs: map<nat, seq<Entry>>, logs': map<nat, seq<Entry>>, from: nat, limit: nat)
    requires forall l :: from <= l < limit ==> (l in logs <==> l in logs') && (l in logs ==> logs[l] == logs'[l])
    ensures LogsBelow(logs, from, limit) == LogsBelow(logs', from, limit)
  {
  }

  /** Nothing stored in tables or in older logs is newer than the last
      acknowledged write. */
  lemma BelowFlying(d: Disk, v: Proc, hist: seq<Entry>, floor: nat)
    requires OpenOk(d, v, hist, floor) && Good(d, Current(d), hist + v.flying, floor) && AtMeta(d, v)
    ensures forall e :: e in Tables(d.tables, v.files) + ImmSet(v) ==> e.key.sequence <= |hist|
    ensures AllNewer(Elems(d.logs[v.logfile]), ImmSet(v))
    ensures forall i :: |hist| <= i < |hist + v.flying| ==> (hist + v.flying)[i] in Elems(d.logs[v.logfile])
  {
    hide Covered, OpenJobOk;
    var full, t, g := hist + v.flying, Tables(d.tables, v.files), Logs(d.logs, v.log);
    SplitLogs(d.logs, v.log, v.logfile);
    forall x, y | x in Elems(d.logs[v.logfile]) && y in ImmSet(v)
      ensures x.key.sequence > y.key.sequence
    {
      var l :| l in d.logs && v.log <= l < v.logfile && y in d.logs[l];
      assert Earlier(d.logs[l], d.logs[v.logfile]);
    }
    forall e | e in t + ImmSet(v)
      ensures e.key.sequence <= |hist|
    {
      assert e in t + g && FromHist(full, e);
      if v.flying != [] {
        assert v.flying[0] in Elems(d.logs[v.logfile]) && v.flying[0] in g;
      }
    }
  }

  lemma FlushIsGood(d: Disk, v: Proc, hist: seq<Entry>, floor: nat, outs: set<nat>)
    requires OpenOk(d, v, hist, floor) && Good(d, Current(d), hist + v.flying, floor) && AtMeta(d, v)
    requires v.imm.Some? && Tables(d.tables, outs) == v.imm.value && outs <= d.tables.Keys && forall n ::
                                                                                               n in outs ==> n < v.next
    ensures Good(d, Meta(v.files + outs, v.logfile, v.next, v.last), hist + v.flying, floor)
  {
    BelowFlying(d, v, hist, floor);
    SplitLogs(d.logs, v.log, v.logfile);
    TablesUnion(d.tables, v.files, outs);
    CompleteMove(Tables(d.tables, v.files), ImmSet(v), Elems(d.logs[v.logfile]), Current(d).last, v.last,
                 hist + v.flying, floor);
  }

  lemma RaiseFloor(hist: seq<Entry>, stored: set<Entry>, floor: nat, floor': nat)
    requires Covered(hist, stored, floor) && floor <= floor'
    ensures Covered(hist, stored, floor')
  {
  }

  lemma CompactionIsComplete(others: set<Entry>, ins: set<Entry>, outs: set<Entry>, g: set<Entry>, last: nat,
                             last': nat,
                             full: seq<Entry>, floor: nat, snapshot: nat)
    requires Complete(others + ins, g, last, full, floor)
    requires outs <= ins && HiddenAreDropped(ins, outs, snapshot) && DropsAreJust(others + g, ins, outs, snapshot)
    requires snapshot <= |full| && last' <= |full| && forall e :: e in others + ins ==> e.key.sequence <= last'
    requires forall i :: last' <= i < |full| ==> full[i] in g
    ensures Complete(others + outs, g, last', full, if snapshot > floor then snapshot else floor)
  {
    assert others + ins + g == others + g + ins;
    assert others + outs + g == others + g + outs;
    hide DropsAreJust, HiddenAreDropped;
    DropsKeepCovered(full, others + g, ins, outs, floor, snapshot);
  }

  lemma CompactionIsGood(d: Disk, v: Proc, hist: seq<Entry>, floor: nat, ins: set<nat>, outs: set<nat>, snapshot: nat)
    requires OpenOk(d, v, hist, floor) && Good(d, Current(d), hist + v.flying, floor) && AtMeta(d, v)
    requires ins <= v.files && outs <= d.tables.Keys && (forall n :: n in outs ==> n < v.next)
    requires snapshot <= v.last && Justified(d, v.files, v.log, ins, outs, snapshot)
    ensures var floor' := if snapshot > floor then snapshot else floor;
            && Good(d, Current(d), hist + v.flying, floor')
            && Good(d, Meta(v.files - ins + outs, v.log, v.next, v.last), hist + v.flying, floor')
  {
    var full, g := hist + v.flying, Logs(d.logs, v.log);
    var floor' := if snapshot > floor then snapshot else floor;
    BelowFlying(d, v, hist, floor);
    SplitLogs(d.logs, v.log, v.logfile);
    TablesUnion(d.tables, v.files - ins, ins);
    TablesUnion(d.tables, v.files - ins, outs);
    assert v.files - ins + ins == v.files;
    CompactionIsComplete(Tables(d.tables, v.files - ins), Tables(d.tables, ins), Tables(d.tables, outs), g,
                         Current(d).last, v.last, full, floor, snapshot);
    RaiseFloor(full, Tables(d.tables, v.files) + g, floor, floor');
  }

  lemma CountedOrLogged(hist: seq<Entry>, g: set<Entry>, counted: nat, last: nat, i: nat)
    requires HistOk(hist) && i < |hist| && counted <= last && forall j :: counted <= j < |hist| ==> hist[j] in g
    requires forall e :: e in g ==> e.key.sequence <= last
    ensures i < last
  {
    assert counted <= i ==> hist[i] in g;
  }

  /** When every log has been replayed the new tables hold all that the logs held. */
  lemma RecoveryIsGood(d: Disk, v: Proc, hist: seq<Entry>, floor: nat, built: set<nat>)
    requires Good(d, Current(d), hist, floor) && AtMeta(d, v) && Current(d).next < v.next
             && Current(d).last <= v.last <= |hist|
    requires Replaying(d, v, [], 0, built) && v.next !in d.logs
    ensures v.last == |hist|
    ensures Good(d.(logs := d.logs[v.next := []]), Meta(v.files + built, v.next, v.next + 1, v.last), hist, floor)
  {
    var t, g := Tables(d.tables, v.files), Logs(d.logs, v.log);
    assert DonePart(d.logs, v.log, [], 0) == g;
    forall e | e in g
      ensures e.key.sequence <= v.last
    {
      var l :| l in d.logs && l >= v.log && e in d.logs[l];
    }
    if hist != [] {
      CountedOrLogged(hist, g, Current(d).last, v.last, |hist| - 1);
    }
    forall e | e in t + g
      ensures e.key.sequence <= v.last
    {
      assert FromHist(hist, e);
    }
    assert g + {} == g;
    CompleteMove(t, g, {}, Current(d).last, v.last, hist, floor);
    TablesUnion(d.tables, v.files, built);
    var logs' := d.logs[v.next := []];
    forall l | l in d.logs
      ensures l < v.next
    {
    }
    assert Logs(logs', v.next) == {};
  }

  // ----- steps of the writers

  lemma LogWriteKeeps(s: Sys, v: Proc, es: seq<Entry>, s': Sys)
    requires SysInv(s) && s.proc == Some(v) && s'.proc.Some? && WriterNext(s, v, LogWrite(es), s', s'.proc.value)
    ensures SysInv(s')
  {
    var d, d' := s.disk, s'.disk;
    assert s.hist + [] == s.hist;
    WriteKeepsGood(d, Current(d), s.hist, s.floor, v.logfile, es);
    if v.job.Applying? && v.job.phase == Prepared {
      WriteKeepsGood(d, ApplyEdit(Current(d), v.job.edit), s.hist, s.floor, v.logfile, es);
    }
    assert Elems(d.logs[v.logfile] + es) == Elems(d.logs[v.logfile]) + Elems(es);
    LogsBelowSame(d.logs, d'.logs, v.log, v.logfile);
  }

  lemma AcknowledgeKeeps(s: Sys, v: Proc, s': Sys)
    requires SysInv(s) && s.proc == Some(v) && s'.proc.Some? && WriterNext(s, v, Acknowledge, s', s'.proc.value)
    ensures SysInv(s')
  {
    var v' := s'.proc.value;
    assert s'.hist + v'.flying == s.hist + v.flying;
    assert v'.mem + Elems(v'.flying) == v.mem + Elems(v.flying);
  }

  lemma SwitchLogKeeps(s: Sys, v: Proc, s': Sys)
    requires SysInv(s) && s.proc == Some(v) && s'.proc.Some? && WriterNext(s, v, SwitchLog, s', s'.proc.value)
    ensures SysInv(s')
  {
    var d, d', v' := s.disk, s'.disk, s'.proc.value;
    assert v.next !in d.logs;
    EmptyLogKeepsGood(d, Current(d), FullHist(s), s.floor, v.next);
    if v.job.Applying? && v.job.phase == Prepared {
      EmptyLogKeepsGood(d, ApplyEdit(Current(d), v.job.edit), FullHist(s), s.floor, v.next);
    }
    AllInLogfile(d.logs, v.log, v.logfile, v.next);
  }

  /** With no older log in use, the logs before a new one are the current one. */
  lemma AllInLogfile(logs: map<nat, seq<Entry>>, from: nat, logfile: nat, next: nat)
    requires from <= logfile < next && logfile in logs && (forall l :: l in logs ==> l <= logfile)
    requires LogsBelow(logs, from, logfile) == {}
    ensures LogsBelow(logs[next := []], from, next) == Elems(logs[logfile])
  {
    var logs' := logs[next := []];
    assert Logs(logs, from) == LogsBelow(logs, from, logfile) + Elems(logs[logfile]) by {
      SplitLogs(logs, from, logfile);
    }
    forall e | e in logs[logfile]
      ensures e in LogsBelow(logs', from, next)
    {
      assert e in logs'[logfile];
    }
    forall e | e in LogsBelow(logs', from, next)
      ensures e in Logs(logs, from)
    {
      var l :| l in logs' && from <= l < next && e in logs'[l];
      assert e in logs[l];
    }
  }

  // ----- background steps

  lemma StartKeeps(s: Sys, v: Proc, ev: Event, s': Sys)
    requires ev.StartFlush? || ev.StartCompaction?
    requires SysInv(s) && s.proc == Some(v) && s'.proc.Some? && BackgroundNext(s, v, ev, s', s'.proc.value)
    ensures SysInv(s')
  {
  }

  lemma WriteTableKeeps(s: Sys, v: Proc, contents: set<Entry>, s': Sys)
    requires SysInv(s) && s.proc == Some(v) && s'.proc.Some?
             && BackgroundNext(s, v, WriteTable(contents), s', s'.proc.value)
    ensures SysInv(s')
  {
    NewTableKeepsGood(s.disk, Current(s.disk), FullHist(s), s.floor, v.next, contents);
  }

  lemma PrepareFlushKeeps(s: Sys, v: Proc, s': Sys)
    requires SysInv(s) && s.proc == Some(v) && s'.proc.Some? && BackgroundNext(s, v, PrepareFlush, s', s'.proc.value)
    ensures SysInv(s')
  {
    FlushIsGood(s.disk, v, s.hist, s.floor, v.job.outs);
    var e := s'.proc.value.job.edit;
    assert v.files - {} == v.files;
    assert ApplyEdit(Current(s.disk), e) == Meta(v.files + v.job.outs, v.logfile, v.next, v.last);
  }

  lemma PrepareCompactionKeeps(s: Sys, v: Proc, snapshot: nat, s': Sys)
    requires SysInv(s) && s.proc == Some(v) && s'.proc.Some?
    requires BackgroundNext(s, v, PrepareCompaction(snapshot), s', s'.proc.value)
    ensures SysInv(s')
  {
    CompactionIsGood(s.disk, v, s.hist, s.floor, v.job.ins, v.job.outs, snapshot);
  }

  lemma ReadAppend(edits: seq<Edit>, e: Edit)
    ensures ReadManifest(edits + [e]) == ApplyEdit(ReadManifest(edits), e)
  {
    assert (edits + [e])[..|edits|] == edits;
  }

  lemma OtherManifest(d: Disk, number: nat, edits: seq<Edit>, m: Meta, full: seq<Entry>, floor: nat)
    requires Good(d, m, full, floor)
    ensures Good(d.(manifests := d.manifests[number := edits]), m, full, floor)
    ensures d.current != number ==> Current(d.(manifests := d.manifests[number := edits])) == Current(d)
  {
  }

  lemma WriteSnapshotKeeps(s: Sys, v: Proc, s': Sys)
    requires SysInv(s) && s.proc == Some(v) && s'.proc.Some? && BackgroundNext(s, v, WriteSnapshot, s', s'.proc.value)
    ensures SysInv(s')
  {
    OtherManifest(s.disk, v.manifest, [Snapshot(v.files)], Current(s.disk), FullHist(s), s.floor);
  }

  /** The commit point of a flush or a compaction. */
  lemma AppendKeeps(s: Sys, v: Proc, s': Sys)
    requires SysInv(s) && s.proc == Some(v) && v.open && s'.proc.Some?
             && BackgroundNext(s, v, AppendEdit, s', s'.proc.value)
    ensures SysInv(s')
  {
    hide Complete, LogsSorted;
    ReadAppend(s.disk.manifests[v.manifest], v.job.edit);
  }

  lemma AppendToNewKeeps(s: Sys, v: Proc, s': Sys)
    requires SysInv(s) && s.proc == Some(v) && !v.open && s'.proc.Some?
             && BackgroundNext(s, v, AppendEdit, s', s'.proc.value)
    ensures SysInv(s')
  {
    assert [Snapshot(v.files)] + [v.job.edit] == [Snapshot(v.files), v.job.edit];
  }

  lemma ReadFresh(files: set<nat>, e: Edit)
    requires Full(e) && e.del == {}
    ensures ReadManifest([Snapshot(files), e]) == Meta(files + e.add, e.log.value, e.next.value, e.last.value)
  {
    ReadAppend([], Snapshot(files));
    ReadAppend([Snapshot(files)], e);
    assert [] + [Snapshot(files)] == [Snapshot(files)];
    assert [Snapshot(files)] + [e] == [Snapshot(files), e];
  }

  /** The commit point of a recovery. */
  lemma SetCurrentKeeps(s: Sys, v: Proc, s': Sys)
    requires SysInv(s) && s.proc == Some(v) && s'.proc.Some? && BackgroundNext(s, v, SetCurrent, s', s'.proc.value)
    ensures SysInv(s')
  {
    ReadFresh(v.files, v.job.edit);
    var e := v.job.edit;
    PointAt(s.disk, v.manifest, Meta(v.files + e.add, v.logfile, e.next.value, e.last.value), s.hist, s.floor);
    assert s.hist + [] == s.hist;
  }

  lemma PointAt(d: Disk, number: nat, m: Meta, full: seq<Entry>, floor: nat)
    requires Good(d, m, full, floor)
    ensures Good(d.(current := number), m, full, floor)
  {
  }

  lemma InstallKeeps(s: Sys, v: Proc, s': Sys)
    requires SysInv(s) && s.proc == Some(v) && v.open && s'.proc.Some?
             && BackgroundNext(s, v, Install, s', s'.proc.value)
    ensures SysInv(s')
  {
    SplitLogs(s.disk.logs, v.log, v.logfile);
  }

  lemma InstallRecoveredKeeps(s: Sys, v: Proc, s': Sys)
    requires SysInv(s) && s.proc == Some(v) && !v.open && s'.proc.Some?
             && BackgroundNext(s, v, Install, s', s'.proc.value)
    ensures SysInv(s')
  {
    ReadFresh(v.files, v.job.edit);
    SplitLogs(s.disk.logs, v.logfile, v.logfile);
    assert v.files - {} == v.files;
  }

  lemma DeleteTableKeeps(s: Sys, v: Proc, n: nat, s': Sys)
    requires SysInv(s) && s.proc == Some(v) && s'.proc.Some? && BackgroundNext(s, v, DeleteTable(n), s', s'.proc.value)
    ensures SysInv(s')
  {
    TablesSame(s.disk.tables, s'.disk.tables, v.files);
  }

  lemma DeleteLogKeeps(s: Sys, v: Proc, n: nat, s': Sys)
    requires SysInv(s) && s.proc == Some(v) && s'.proc.Some? && BackgroundNext(s, v, DeleteLog(n), s', s'.proc.value)
    ensures SysInv(s')
  {
    var logs, logs' := s.disk.logs, s'.disk.logs;
    SplitLogs(logs, v.log, v.logfile);
    SplitLogs(logs', v.log, v.logfile);
    LogsBelowSame(logs, logs', v.log, v.logfile);
  }

  lemma DeleteManifestKeeps(s: Sys, v: Proc, n: nat, s': Sys)
    requires SysInv(s) && s.proc == Some(v) && s'.proc.Some?
             && BackgroundNext(s, v, DeleteManifest(n), s', s'.proc.value)
    ensures SysInv(s')
  {
  }

  // ----- crash and recovery

  lemma CrashKeeps(s: Sys, v: Proc, s': Sys)
    requires SysInv(s) && s.proc == Some(v) && UpNext(s, v, Crash, s')
    ensures SysInv(s')
  {
  }

  lemma OpenKeeps(s: Sys, todo: seq<nat>, s': Sys)
    requires SysInv(s) && s.proc.None? && DownNext(s, Open(todo), s')
    ensures SysInv(s')
  {
    var d, v := s.disk, s'.proc.value;
    assert s'.hist + v.flying == s.hist;
    assert Tables(d.tables, {}) == {} == DonePart(d.logs, v.log, todo, 0);
  }

  lemma RecoverTableKeeps(s: Sys, v: Proc, upto: nat, s': Sys)
    requires SysInv(s) && s.proc == Some(v) && s'.proc.Some?
             && RecoveryNext(s, v, RecoverTable(upto), s', s'.proc.value)
    ensures SysInv(s')
  {
    NewTableKeepsGood(s.disk, Current(s.disk), FullHist(s), s.floor, v.next,
                      Elems(s.disk.logs[v.job.todo[0]][v.job.pos..upto]));
    ReplayTable(s.disk, v, v.job.todo, v.job.pos, v.job.built, upto, s'.disk, s'.proc.value);
  }

  lemma ReplayTable(d: Disk, v: Proc, todo: seq<nat>, pos: nat, built: set<nat>, upto: nat, d': Disk, v': Proc)
    requires Replaying(d, v, todo, pos, built) && LogsSorted(d.logs, v.log) && todo != []
             && pos < upto <= |d.logs[todo[0]]|
    requires d'.logs == d.logs && d'.tables == d.tables[v.next := Elems(d.logs[todo[0]][pos..upto])]
    requires v'.log == v.log && v'.next == v.next + 1 && v'.last == v.last && v'.manifest == v.manifest < v.next
    ensures Replaying(d', v', todo, upto, built + {v.next})
  {
    var log := d.logs[todo[0]];
    var es := Elems(log[pos..upto]);
    TablesAdd(d.tables, built, v.next, es);
    assert log[..upto] == log[..pos] + log[pos..upto];
    assert Elems(log[..upto]) == Elems(log[..pos]) + es;
    assert DonePart(d.logs, v.log, todo, upto) == DonePart(d.logs, v.log, todo, pos) + es;
    NewestSoFar(d, v, todo, pos, built, upto);
  }

  lemma NewestSoFar(d: Disk, v: Proc, todo: seq<nat>, pos: nat, built: set<nat>, upto: nat)
    requires Replaying(d, v, todo, pos, built) && LogsSorted(d.logs, v.log) && todo != []
             && pos < upto <= |d.logs[todo[0]]|
    ensures TablesOldestFirst(d.tables[v.next := Elems(d.logs[todo[0]][pos..upto])], built + {v.next})
  {
    var log := d.logs[todo[0]];
    forall x, y | x in Tables(d.tables, built) && y in log[pos..upto]
      ensures x.key.sequence < y.key.sequence
    {
      BeforeTheRest(d, v, todo, pos, built, x, y);
    }
    var tables' := d.tables[v.next := Elems(log[pos..upto])];
    forall a: nat, b: nat, x: Entry, y: Entry | a in built + {v.next} && b in built + {v.next} && a < b && a in tables'
        && b in tables'
                        && x in tables'[a] && y in tables'[b]
      ensures x.key.sequence < y.key.sequence
    {
      assert x in Tables(d.tables, built);
    }
  }

  lemma BeforeTheRest(d: Disk, v: Proc, todo: seq<nat>, pos: nat, built: set<nat>, x: Entry, y: Entry)
    requires Replaying(d, v, todo, pos, built) && LogsSorted(d.logs, v.log) && todo != [] && pos <= |d.logs[todo[0]]|
    requires x in Tables(d.tables, built) && y in d.logs[todo[0]][pos..]
    ensures x.key.sequence < y.key.sequence
  {
    hide TablesOldestFirst, LogsSorted, Tables, DonePart, Increasing;
    assert todo[0] in todo;
    DoneBefore(d.logs, v.log, todo, pos, x, y);
  }

  lemma DoneBefore(logs: map<nat, seq<Entry>>, from: nat, todo: seq<nat>, pos: nat, x: Entry, y: Entry)
    requires LogsSorted(logs, from) && todo != [] && todo[0] in logs && todo[0] >= from && pos <= |logs[todo[0]]|
    requires forall l :: l in logs && l >= from && l !in todo ==> forall k :: k in todo ==> l < k
    requires x in DonePart(logs, from, todo, pos) && y in logs[todo[0]][pos..]
    ensures x.key.sequence < y.key.sequence
  {
    hide InSequence, Earlier;
    var log := logs[todo[0]];
    assert todo[0] in todo && InSequence(log);
    if x in log[..pos] {
      BeforeInLog(log, pos, x, y);
    } else {
      var l :| l in logs && l >= from && l !in todo && x in logs[l];
      EarlierIsBefore(logs[l], log, x, y);
    }
  }

  lemma EarlierIsBefore(a: seq<Entry>, b: seq<Entry>, x: Entry, y: Entry)
    requires Earlier(a, b) && x in a && y in b
    ensures x.key.sequence < y.key.sequence
  {
  }

  lemma BeforeInLog(log: seq<Entry>, pos: nat, x: Entry, y: Entry)
    requires InSequence(log) && pos <= |log| && x in log[..pos] && y in log[pos..]
    ensures x.key.sequence < y.key.sequence
  {
    var i :| 0 <= i < pos && log[i] == x;
    var j :| pos <= j < |log| && log[j] == y;
  }

  lemma RecoverLogDoneKeeps(s: Sys, v: Proc, s': Sys)
    requires SysInv(s) && s.proc == Some(v) && s'.proc.Some? && RecoveryNext(s, v, RecoverLogDone, s', s'.proc.value)
    ensures SysInv(s')
  {
    LastInHistory(s.disk, Current(s.disk), FullHist(s), s.floor, v.job.todo[0], v.last);
    ReplayLogDone(s.disk, v, v.job.todo, v.job.built, s'.proc.value);
  }

  lemma LastInHistory(d: Disk, m: Meta, full: seq<Entry>, floor: nat, l: nat, last: nat)
    requires Good(d, m, full, floor) && l in d.logs && l >= m.log && last <= |full|
    ensures last <= LastOf(d.logs[l], last) <= |full|
  {
    var log := d.logs[l];
    if log != [] {
      var e := log[|log| - 1];
      assert e in log;
      assert e in Logs(d.logs, m.log) && e in Tables(d.tables, m.files) + Logs(d.logs, m.log) && FromHist(full, e);
    }
  }

  lemma NextLog(logs: map<nat, seq<Entry>>, from: nat, todo: seq<nat>)
    requires todo != [] && Increasing(todo) && todo[0] in logs && todo[0] >= from
    ensures DonePart(logs, from, todo[1..], 0) == DonePart(logs, from, todo, |logs[todo[0]]|)
    ensures forall l :: l in todo <==> l == todo[0] || l in todo[1..]
    ensures todo[0] !in todo[1..]
  {
    var log := logs[todo[0]];
    assert todo == [todo[0]] + todo[1..];
    assert log[..|log|] == log;
    assert HeadPart(logs, todo, |log|) == Elems(log);
    assert HeadPart(logs, todo[1..], 0) == {};
    forall e
      ensures e in DonePart(logs, from, todo[1..], 0) <==> e in DonePart(logs, from, todo, |log|)
    {
    }
  }

  lemma ReplayLogDone(d: Disk, v: Proc, todo: seq<nat>, built: set<nat>, v': Proc)
    requires todo != [] && todo[0] in d.logs && Replaying(d, v, todo, |d.logs[todo[0]]|, built)
             && LogsSorted(d.logs, v.log)
    requires v'.log == v.log && v'.manifest == v.manifest && v'.last == LastOf(d.logs[todo[0]], v.last)
    requires v'.next == if v.next <= todo[0] then todo[0] + 1 else v.next
    ensures Replaying(d, v', todo[1..], 0, built)
  {
    assert todo[0] in todo;
    NextLog(d.logs, v.log, todo);
    LastOfLog(d.logs[todo[0]]);
    forall l, k | l in d.logs && l >= v.log && l !in todo[1..] && k in todo[1..]
      ensures l < k
    {
      var i :| 0 < i < |todo| && todo[i] == k;
    }
  }

  lemma LastOfLog(log: seq<Entry>)
    requires InSequence(log)
    ensures forall e :: e in log ==> e.key.sequence <= log[|log| - 1].key.sequence
  {
  }

  lemma OpenLogKeeps(s: Sys, v: Proc, s': Sys)
    requires SysInv(s) && s.proc == Some(v) && s'.proc.Some? && RecoveryNext(s, v, OpenLog, s', s'.proc.value)
    ensures SysInv(s')
  {
    assert s.hist + [] == s.hist;
    assert v.next !in s.disk.logs;
    RecoveryIsGood(s.disk, v, s.hist, s.floor, v.job.built);
    EmptyLogKeepsGood(s.disk, Current(s.disk), s.hist, s.floor, v.next);
  }

  // ----- every run

  lemma WriterKeeps(s: Sys, v: Proc, ev: Event, s': Sys)
    requires SysInv(s) && s.proc == Some(v) && s'.proc.Some? && WriterNext(s, v, ev, s', s'.proc.value)
    ensures SysInv(s')
  {
    match ev {
      case LogWrite(es) => LogWriteKeeps(s, v, es, s');
      case Acknowledge => AcknowledgeKeeps(s, v, s');
      case SwitchLog => SwitchLogKeeps(s, v, s');
    }
  }

  lemma RecoveryKeeps(s: Sys, v: Proc, ev: Event, s': Sys)
    requires SysInv(s) && s.proc == Some(v) && s'.proc.Some? && RecoveryNext(s, v, ev, s', s'.proc.value)
    ensures SysInv(s')
  {
    match ev {
      case RecoverTable(upto) => RecoverTableKeeps(s, v, upto, s');
      case RecoverLogDone => RecoverLogDoneKeeps(s, v, s');
      case OpenLog => OpenLogKeeps(s, v, s');
    }
  }

  lemma ApplyKeeps(s: Sys, v: Proc, ev: Event, s': Sys)
    requires ev.WriteSnapshot? || ev.AppendEdit? || ev.SetCurrent? || ev.Install?
    requires SysInv(s) && s.proc == Some(v) && s'.proc.Some? && BackgroundNext(s, v, ev, s', s'.proc.value)
    ensures SysInv(s')
  {
    match ev {
      case WriteSnapshot => WriteSnapshotKeeps(s, v, s');
      case AppendEdit =>
        if v.open {
          AppendKeeps(s, v, s');
        } else {
          AppendToNewKeeps(s, v, s');
        }
      case SetCurrent => SetCurrentKeeps(s, v, s');
      case Install =>
        if v.open {
          InstallKeeps(s, v, s');
        } else {
          InstallRecoveredKeeps(s, v, s');
        }
    }
  }

  lemma BuildKeeps(s: Sys, v: Proc, ev: Event, s': Sys)
    requires ev.StartFlush? || ev.StartCompaction? || ev.WriteTable? || ev.PrepareFlush? || ev.PrepareCompaction?
    requires SysInv(s) && s.proc == Some(v) && s'.proc.Some? && BackgroundNext(s, v, ev, s', s'.proc.value)
    ensures SysInv(s')
  {
    if ev.WriteTable? {
      WriteTableKeeps(s, v, ev.contents, s');
    } else if ev.PrepareFlush? {
      PrepareFlushKeeps(s, v, s');
    } else if ev.PrepareCompaction? {
      PrepareCompactionKeeps(s, v, ev.snapshot, s');
    } else {
      StartKeeps(s, v, ev, s');
    }
  }

  lemma DeleteKeeps(s: Sys, v: Proc, ev: Event, s': Sys)
    requires ev.DeleteTable? || ev.DeleteLog? || ev.DeleteManifest?
    requires SysInv(s) && s.proc == Some(v) && s'.proc.Some? && BackgroundNext(s, v, ev, s', s'.proc.value)
    ensures SysInv(s')
  {
    match ev {
      case DeleteTable(n) => DeleteTableKeeps(s, v, n, s');
      case DeleteLog(n) => DeleteLogKeeps(s, v, n, s');
      case DeleteManifest(n) => DeleteManifestKeeps(s, v, n, s');
    }
  }

  lemma BackgroundKeeps(s: Sys, v: Proc, ev: Event, s': Sys)
    requires SysInv(s) && s.proc == Some(v) && s'.proc.Some? && BackgroundNext(s, v, ev, s', s'.proc.value)
    ensures SysInv(s')
  {
    hide SysInv;
    if ev.DeleteTable? || ev.DeleteLog? || ev.DeleteManifest? {
      DeleteKeeps(s, v, ev, s');
    } else if ev.WriteSnapshot? || ev.AppendEdit? || ev.SetCurrent? || ev.Install? {
      ApplyKeeps(s, v, ev, s');
    } else {
      BuildKeeps(s, v, ev, s');
    }
  }

  lemma UpKeeps(s: Sys, v: Proc, ev: Event, s': Sys)
    requires SysInv(s) && s.proc == Some(v) && !ev.Crash? && UpNext(s, v, ev, s')
    ensures SysInv(s')
  {
    hide SysInv, WriterNext, RecoveryNext, BackgroundNext;
    if ev.LogWrite? || ev.Acknowledge? || ev.SwitchLog? {
      WriterKeeps(s, v, ev, s');
    } else if ev.RecoverTable? || ev.RecoverLogDone? || ev.OpenLog? {
      RecoveryKeeps(s, v, ev, s');
    } else {
      BackgroundKeeps(s, v, ev, s');
    }
  }

  lemma NextKeeps(s: Sys, ev: Event, s': Sys)
    requires SysInv(s) && SysNext(s, ev, s')
    ensures SysInv(s')
  {
    hide SysInv, WriterNext, RecoveryNext, BackgroundNext;
    if s.proc.None? {
      OpenKeeps(s, ev.todo, s');
    } else if ev.Crash? {
      CrashKeeps(s, s.proc.value, s');
    } else {
      UpKeeps(s, s.proc.value, ev, s');
    }
  }

  /** A step adds nothing to the history but the group in flight. */
  lemma HistoryGrows(s: Sys, ev: Event, s': Sys)
    requires SysNext(s, ev, s')
    ensures s.hist <= s'.hist <= FullHist(s)
  {
  }

  ghost predicate IsRun(states: seq<Sys>, events: seq<Event>) {
    && |states| == |events| + 1
    && states[0] == NEW_DB
    && forall i :: 0 <= i < |events| ==> SysNext(states[i], events[i], states[i + 1])
  }

  lemma InitKeeps()
    ensures SysInv(NEW_DB)
  {
    var d := NEW_DB.disk;
    ReadAppend([], Edit({}, {}, Some(0), Some(2), Some(0)));
    assert [] + d.manifests[1] == d.manifests[1];
    assert Current(d) == Meta({}, 0, 2, 0);
    assert Tables(d.tables, {}) == {} && Logs(d.logs, 0) == {};
    assert Complete({}, {}, 0, [], 0);
  }

  lemma {:induction false} RunsKeep(states: seq<Sys>, events: seq<Event>, i: nat)
    requires IsRun(states, events) && i < |states|
    ensures SysInv(states[i])
  {
    hide SysInv, SysNext;
    if i == 0 {
      InitKeeps();
    } else {
      RunsKeep(states, events, i - 1);
      NextKeeps(states[i - 1], events[i - 1], states[i]);
    }
  }

  /** Crash safety.  In every state of every run the manifest's tables exist, and
      the tables together with the logs from the manifest's log number on read, at
      every promised sequence, like a plain map that saw the acknowledged writes
      followed by at most the group in flight. */
  lemma CrashSafety(states: seq<Sys>, events: seq<Event>, i: nat, u: UserKey, at: nat, r: Option<Entry>)
    requires IsRun(states, events) && i < |states|
    requires states[i].floor <= at <= |FullHist(states[i])| && Reads(Recovered(states[i].disk), u, at, r)
    ensures var s := states[i];
            && Current(s.disk).files <= s.disk.tables.Keys
            && s.floor <= |s.hist|
            && (forall e :: e in Recovered(s.disk) ==> FromHist(FullHist(s), e))
            && AnswerOf(r) == Lookup(Replay(FullHist(s)[..at]), u)
  {
    RunsKeep(states, events, i);
    CoveredReads(FullHist(states[i]), Recovered(states[i].disk), states[i].floor, u, at, r);
  }

  /** Acknowledged writes stay: the history only grows, also across crashes. */
  lemma {:induction false} AcknowledgedStays(states: seq<Sys>, events: seq<Event>, i: nat, j: nat)
    requires IsRun(states, events) && i <= j < |states|
    ensures states[i].hist <= states[j].hist
    decreases j
  {
    if i < j {
      AcknowledgedStays(states, events, i, j - 1);
      HistoryGrows(states[j - 1], events[j - 1], states[j]);
    }
  }

  /** Once open, LastSequence is the number of acknowledged writes, no stored entry
      is above it, and the manifest's tables with the memtables hold what a
      recovery would find. */
  lemma OpenSequence(states: seq<Sys>, events: seq<Event>, i: nat, e: Entry)
    requires IsRun(states, events) && i < |states| && states[i].proc.Some? && states[i].proc.value.open
    requires states[i].proc.value.flying == [] && e in Recovered(states[i].disk)
    ensures states[i].proc.value.last == |states[i].hist| && 1 <= e.key.sequence <= states[i].proc.value.last
  {
    RunsKeep(states, events, i);
    assert FromHist(FullHist(states[i]), e);
  }

  /** Recovery writes its level-0 tables oldest first, and all of them are newer
      than the tables of the manifest: the order in which Get searches level 0. */
  lemma RecoveredInOrder(states: seq<Sys>, events: seq<Event>, i: nat)
    requires IsRun(states, events) && i < |states| && states[i].proc.Some? && states[i].proc.value.job.Recovering?
    ensures var d, v := states[i].disk, states[i].proc.value;
            && TablesOldestFirst(d.tables, v.job.built)
            && (forall a, b :: a in v.job.built && b in v.files ==> a > b)
            && AllNewer(Tables(d.tables, v.job.built), Tables(d.tables, v.files))
  {
    hide SysInv, TablesOldestFirst, AllNewer, IsRun;
    RunsKeep(states, events, i);
    RecoveringInOrder(states[i], states[i].proc.value);
  }

  lemma RecoveringInOrder(s: Sys, v: Proc)
    requires SysInv(s) && s.proc == Some(v) && v.job.Recovering?
    ensures TablesOldestFirst(s.disk.tables, v.job.built) && forall a, b :: a in v.job.built && b in v.files ==> a > b
    ensures AllNewer(Tables(s.disk.tables, v.job.built), Tables(s.disk.tables, v.files))
  {
    hide TablesOldestFirst;
    DoneIsLogged(s.disk.logs, v.log, v.job.todo, v.job.pos);
  }

  lemma DoneIsLogged(logs: map<nat, seq<Entry>>, log: nat, todo: seq<nat>, pos: nat)
    requires forall l :: l in todo ==> l in logs && l >= log
    requires todo != [] ==> pos <= |logs[todo[0]]|
    ensures DonePart(logs, log, todo, pos) <= Logs(logs, log)
  {
    forall e | e in DonePart(logs, log, todo, pos)
      ensures e in Logs(logs, log)
    {
      if e in HeadPart(logs, todo, pos) {
        assert todo[0] in todo && e in logs[todo[0]];
      }
    }
  }
}
