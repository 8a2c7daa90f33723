/** What every reachable state of the durability model keeps. */
module DurabilityInv {
  import opened Format
  import opened Lsm
  import opened LsmReads
  import opened LsmDrops
  import opened LsmRuns
  import opened Durability

  // ----- a good starting point for recovery

  ghost predicate InSequence(es: seq<Entry>) {
    forall i, j :: 0 <= i < j < |es| ==> es[i].key.sequence < es[j].key.sequence
  }

  ghost predicate Earlier(a: seq<Entry>, b: seq<Entry>) {
    forall x, y :: x in a && y in b ==> x.key.sequence < y.key.sequence
  }

  /** Records are in sequence order inside a log and from log to log. */
  ghost predicate LogsSorted(logs: map<nat, seq<Entry>>, from: nat) {
    && (forall l :: l in logs && l >= from ==> InSequence(logs[l]))
    && (forall l, k :: l in logs && k in logs && from <= l < k ==> Earlier(logs[l], logs[k]))
  }

  /** Tables `t` and logs `g` together read like `full`; what the manifest's last
      sequence does not count is in the logs. */
  ghost predicate Complete(t: set<Entry>, g: set<Entry>, last: nat, full: seq<Entry>, floor: nat) {
    && HistOk(full) && floor <= |full| && last <= |full|
    && AllFromHist(full, t + g)
    && (forall e :: e in t ==> e.key.sequence <= last)
    && (forall i :: last <= i < |full| ==> full[i] in g)
    && AllNewer(g, t)
    && Covered(full, t + g, floor)
  }

  /** A recovery that starts from `m` finds its files and yields `full`. */
  ghost predicate Good(d: Disk, m: Meta, full: seq<Entry>, floor: nat) {
    && m.files <= d.tables.Keys
    && m.log < m.next && (forall n :: n in m.files ==> n < m.next)
    && LogsSorted(d.logs, m.log)
    && Complete(Tables(d.tables, m.files), Logs(d.logs, m.log), m.last, full, floor)
  }

  // ----- the process against the disk

  ghost predicate AtMeta(d: Disk, v: Proc) {
    Current(d).files == v.files && Current(d).log == v.log
  }

  /** The edits that LogAndApply writes carry every number. */
  predicate Full(e: Edit) {
    e.log.Some? && e.next.Some? && e.last.Some?
  }

  ghost function ImmSet(v: Proc): set<Entry> {
    if v.imm.Some? then v.imm.value else {}
  }

  ghost function LogsBelow(logs: map<nat, seq<Entry>>, from: nat, limit: nat): set<Entry> {
    set l, e | l in logs && from <= l < limit && e in logs[l] :: e
  }

  /** The current log holds the memtable and the group in flight; the logs before
      it hold the immutable memtable. */
  ghost predicate LogsMatch(logs: map<nat, seq<Entry>>, v: Proc) {
    && v.log <= v.logfile < v.next && v.logfile in logs
    && (forall l :: l in logs ==> l <= v.logfile)
    && Elems(logs[v.logfile]) == v.mem + Elems(v.flying)
    && LogsBelow(logs, v.log, v.logfile) == ImmSet(v)
  }

  ghost predicate OpenOk(d: Disk, v: Proc, hist: seq<Entry>, floor: nat) {
    && v.manifest == d.current && v.manifest < v.next && Current(d).next <= v.next
    && v.last == |hist| && IsBatch(v.flying, |hist|)
    && LogsMatch(d.logs, v)
    && OpenJobOk(d, v, hist + v.flying, floor)
  }

  ghost predicate OpenJobOk(d: Disk, v: Proc, full: seq<Entry>, floor: nat) {
    match v.job
    case Idle => AtMeta(d, v)
    case Building(flush, ins, outs) =>
      && AtMeta(d, v) && (if flush then v.imm.Some? && ins == {} else ins <= v.files)
      && outs <= d.tables.Keys && outs !! v.files && (forall n :: n in outs ==> n < v.next)
    case Applying(e, phase, flush) =>
      && Full(e) && v.manifest < e.next.value <= v.next
      && (if flush then v.imm.Some? && e.log.value == v.logfile else e.log.value == v.log)
      && (match phase
          case Prepared => AtMeta(d, v) && Good(d, ApplyEdit(Current(d), e), full, floor)
          case Logged => Current(d).files == v.files - e.del + e.add && Current(d).log == e.log.value
          case _ => false)
    case Recovering(_, _, _) => false
  }

  /** What recovery has turned into tables so far. */
  ghost function DonePart(logs: map<nat, seq<Entry>>, from: nat, todo: seq<nat>, pos: nat): set<Entry> {
    (set l, e | l in logs && l >= from && l !in todo && e in logs[l] :: e) + HeadPart(logs, todo, pos)
  }

  ghost function HeadPart(logs: map<nat, seq<Entry>>, todo: seq<nat>, pos: nat): set<Entry> {
    if todo != [] && todo[0] in logs && pos <= |logs[todo[0]]| then Elems(logs[todo[0]][..pos]) else {}
  }

  /** Recovered tables: a higher number means newer entries. */
  ghost predicate TablesOldestFirst(tables: map<nat, set<Entry>>, outs: set<nat>) {
    forall a, b, x, y :: a in outs && b in outs && a < b && a in tables && b in tables
                         && x in tables[a] && y in tables[b] ==>
      x.key.sequence < y.key.sequence
  }

  ghost predicate Replaying(d: Disk, v: Proc, todo: seq<nat>, pos: nat, outs: set<nat>) {
    && Increasing(todo) && (forall l :: l in todo ==> l in d.logs && l >= v.log)
    && (if todo == [] then pos == 0 else pos <= |d.logs[todo[0]]|)
    && (forall l :: l in d.logs && l >= v.log && l !in todo ==> l < v.next && forall k :: k in todo ==> l < k)
    && (forall l, e :: l in d.logs && l >= v.log && l !in todo && e in d.logs[l] ==> e.key.sequence <= v.last)
    && outs <= d.tables.Keys && (forall n :: n in outs ==> v.manifest < n < v.next)
    && Tables(d.tables, outs) == DonePart(d.logs, v.log, todo, pos)
    && TablesOldestFirst(d.tables, outs)
  }

  ghost predicate RecoveryOk(d: Disk, v: Proc, hist: seq<Entry>, floor: nat) {
    && v.flying == [] && v.mem == {} && v.imm.None? && v.manifest < v.next
    && match v.job
       case Recovering(todo, pos, outs) =>
         && AtMeta(d, v) && v.manifest == Current(d).next && Current(d).last <= v.last <= |hist|
         && Replaying(d, v, todo, pos, outs)
       case Applying(e, phase, flush) =>
         && !flush && Full(e) && e.del == {} && v.manifest < e.next.value <= v.next && v.last == |hist|
         && e.log.value == v.logfile < v.next && v.logfile in d.logs && d.logs[v.logfile] == []
         && (forall l :: l in d.logs ==> l <= v.logfile)
         && Good(d, Meta(v.files + e.add, v.logfile, e.next.value, e.last.value), hist, floor)
         && (if phase == Switched then d.current == v.manifest
             else d.current < v.manifest && AtMeta(d, v) && Current(d).next <= v.next)
         && (phase != Prepared ==>
               && v.manifest in d.manifests
               && d.manifests[v.manifest] == (if phase == Snapshotted then [Snapshot(v.files)] else [Snapshot(v.files),
                      e]))
       case _ => false
  }

  function Snapshot(files: set<nat>): Edit {
    Edit({}, files, None, None, None)
  }

  /** Acknowledged writes and the group in flight. */
  ghost function FullHist(s: Sys): seq<Entry> {
    if s.proc.Some? then s.hist + s.proc.value.flying else s.hist
  }

  ghost predicate DiskOk(d: Disk, full: seq<Entry>, floor: nat) {
    && d.current in d.manifests && d.current < Current(d).next
    && Good(d, Current(d), full, floor)
  }

  ghost predicate SysInv(s: Sys) {
    && DiskOk(s.disk, FullHist(s), s.floor) && s.floor <= |s.hist|
    && (s.proc.Some? ==>
          if s.proc.value.open then OpenOk(s.disk, s.proc.value, s.hist, s.floor)
          else RecoveryOk(s.disk, s.proc.value, s.hist, s.floor))
  }

  // ----- sets of entries on disk

  lemma TablesUnion(tables: map<nat, set<Entry>>, a: set<nat>, b: set<nat>)
    ensures Tables(tables, a + b) == Tables(tables, a) + Tables(tables, b)
  {
  }

  lemma TablesSame(tables: map<nat, set<Entry>>, tables': map<nat, set<Entry>>, ns: set<nat>)
    requires forall n :: n in ns ==> (n in tables <==> n in tables') && (n in tables ==> tables[n] == tables'[n])
    ensures Tables(tables, ns) == Tables(tables', ns)
  {
  }

  lemma TablesAdd(tables: map<nat, set<Entry>>, ns: set<nat>, n: nat, es: set<Entry>)
    requires n !in ns
    ensures Tables(tables[n := es], ns) == Tables(tables, ns)
    ensures Tables(tables[n := es], ns + {n}) == Tables(tables, ns) + es
  {
    var tables' := tables[n := es];
    TablesSame(tables, tables', ns);
    TablesUnion(tables', ns, {n});
    forall e
      ensures e in Tables(tables', {n}) <==> e in es
    {
      assert e in es ==> n in {n} && n in tables' && e in tables'[n];
    }
  }

  lemma LogsAppend(logs: map<nat, seq<Entry>>, from: nat, number: nat, es: seq<Entry>)
    requires number in logs && number >= from
    ensures Logs(logs[number := logs[number] + es], from) == Logs(logs, from) + Elems(es)
  {
    var logs' := logs[number := logs[number] + es];
    forall e
      ensures e in Logs(logs', from) <==> e in Logs(logs, from) + Elems(es)
    {
      if e in es {
        assert e in logs'[number];
      }
      if e in Logs(logs, from) {
        var l :| l in logs && l >= from && e in logs[l];
        assert e in logs'[l];
      }
    }
  }

  lemma LogsNew(logs: map<nat, seq<Entry>>, from: nat, number: nat)
    requires number !in logs
    ensures Logs(logs[number := []], from) == Logs(logs, from)
  {
    var logs' := logs[number := []];
    forall e | e in Logs(logs, from)
      ensures e in Logs(logs', from)
    {
      var l :| l in logs && l >= from && e in logs[l];
      assert e in logs'[l];
    }
  }

  /** A new empty log changes nothing that a recovery reads. */
  lemma EmptyLogKeepsGood(d: Disk, m: Meta, full: seq<Entry>, floor: nat, number: nat)
    requires Good(d, m, full, floor) && number !in d.logs
    ensures Good(d.(logs := d.logs[number := []]), m, full, floor)
  {
    LogsNew(d.logs, m.log, number);
  }

  /** Nor does a table that the version does not list. */
  lemma NewTableKeepsGood(d: Disk, m: Meta, full: seq<Entry>, floor: nat, number: nat, es: set<Entry>)
    requires Good(d, m, full, floor) && number !in m.files
    ensures Good(d.(tables := d.tables[number := es]), m, full, floor)
  {
    TablesAdd(d.tables, m.files, number, es);
  }

  lemma WriteKeepsComplete(t: set<Entry>, g: set<Entry>, last: nat, full: seq<Entry>, floor: nat, es: seq<Entry>)
    requires Complete(t, g, last, full, floor) && IsBatch(es, |full|) && |full| + |es| < MAX_SEQUENCE
    ensures Complete(t, g + Elems(es), last, full + es, floor)
  {
    WriteKeepsCovered(full, t + g, floor, es);
    assert t + g + Elems(es) == t + (g + Elems(es));
    forall e | e in t + (g + Elems(es))
      ensures FromHist(full + es, e)
    {
    }
    forall x, y | x in g + Elems(es) && y in t
      ensures x.key.sequence > y.key.sequence
    {
      assert FromHist(full, y);
    }
    forall i | last <= i < |full + es|
      ensures (full + es)[i] in g + Elems(es)
    {
    }
  }

  /** Appending a group to the newest log extends what recovery yields by it. */
  lemma WriteKeepsGood(d: Disk, m: Meta, full: seq<Entry>, floor: nat, number: nat, es: seq<Entry>)
    requires Good(d, m, full, floor) && IsBatch(es, |full|) && |full| + |es| < MAX_SEQUENCE
    requires number in d.logs && m.log <= number && forall l :: l in d.logs ==> l <= number
    ensures Good(d.(logs := d.logs[number := d.logs[number] + es]), m, full + es, floor)
  {
    var t, g := Tables(d.tables, m.files), Logs(d.logs, m.log);
    WriteKeepsComplete(t, g, m.last, full, floor, es);
    LogsAppend(d.logs, m.log, number, es);
    forall l: nat, e: Entry | l in d.logs && l >= m.log && e in d.logs[l]
      ensures e.key.sequence <= |full|
    {
      assert e in g && e in t + g && FromHist(full, e);
    }
    AppendSorted(d.logs, m.log, number, es, |full|);
  }

  lemma AppendSorted(logs: map<nat, seq<Entry>>, from: nat, number: nat, es: seq<Entry>, last: nat)
    requires LogsSorted(logs, from) && number in logs && number >= from && forall l :: l in logs ==> l <= number
    requires forall l, e :: l in logs && l >= from && e in logs[l] ==> e.key.sequence <= last
    requires IsBatch(es, last)
    ensures LogsSorted(logs[number := logs[number] + es], from)
  {
    var log := logs[number];
    assert forall i :: 0 <= i < |log| ==> log[i] in log;
    assert InSequence(log + es);
    forall l | l in logs && from <= l < number
      ensures Earlier(logs[l], log + es)
    {
      assert Earlier(logs[l], log);
    }
  }
}
