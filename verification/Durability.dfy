/** Crash safety (db/db_impl.cc, db/version_set.cc): the files on disk, the
    process that changes them one file operation at a time, crashes between any
    two operations, and recovery, which may itself crash.

    An append is whole or missing: the log format drops a torn tail.  Tables are
    sets of entries; where they sit among the levels is the tree's business. */
module Durability {
  import opened Format
  import opened Lsm
  import opened LsmReads
  import opened LsmDrops

  /** A manifest record.  A field that the record does not carry is None. */
  datatype Edit = Edit(del: set<nat>, add: set<nat>, log: Option<nat>, next: Option<nat>, last: Option<nat>)

  /** What reading a manifest from its start yields. */
  datatype Meta = Meta(files: set<nat>, log: nat, next: nat, last: nat)

  datatype Disk = Disk(
    tables: map<nat, set<Entry>>,
    logs: map<nat, seq<Entry>>,
    manifests: map<nat, seq<Edit>>,
    current: nat)

  /** How far LogAndApply has come. */
  datatype Phase = Prepared | Snapshotted | Logged | Switched

  datatype Job =
    | Idle
    | Recovering(todo: seq<nat>, pos: nat, built: set<nat>)
    | Building(flush: bool, ins: set<nat>, outs: set<nat>)
    | Applying(edit: Edit, phase: Phase, flush: bool)

  /** The volatile state.  `flying` is the group that is in the log but not yet
      acknowledged. */
  datatype Proc = Proc(
    open: bool,
    files: set<nat>,
    log: nat,
    next: nat,
    last: nat,
    manifest: nat,
    logfile: nat,
    mem: set<Entry>,
    imm: Option<set<Entry>>,
    flying: seq<Entry>,
    job: Job)

  /** `hist` holds the acknowledged writes; reads are promised from `floor` on. */
  datatype Sys = Sys(disk: Disk, proc: Option<Proc>, hist: seq<Entry>, floor: nat)

  datatype Event =
    | LogWrite(es: seq<Entry>) | Acknowledge | SwitchLog
    | StartFlush | StartCompaction(ins: set<nat>) | WriteTable(contents: set<Entry>)
    | PrepareFlush | PrepareCompaction(snapshot: nat)
    | WriteSnapshot | AppendEdit | SetCurrent | Install
    | DeleteTable(number: nat) | DeleteLog(number: nat) | DeleteManifest(number: nat)
    | Crash
    | Open(todo: seq<nat>) | RecoverTable(upto: nat) | RecoverLogDone | OpenLog

  // ----- reading the disk

  function ApplyEdit(m: Meta, e: Edit): Meta {
    Meta(m.files - e.del + e.add,
         if e.log.Some? then e.log.value else m.log,
         if e.next.Some? then e.next.value else m.next,
         if e.last.Some? then e.last.value else m.last)
  }

  /** VersionSet::Recover. */
  function ReadManifest(edits: seq<Edit>): Meta {
    if edits == [] then Meta({}, 0, 0, 0) else ApplyEdit(ReadManifest(edits[..|edits| - 1]), edits[|edits| - 1])
  }

  ghost function Tables(tables: map<nat, set<Entry>>, ns: set<nat>): set<Entry> {
    set n, e | n in ns && n in tables && e in tables[n] :: e
  }

  ghost function Logs(logs: map<nat, seq<Entry>>, from: nat): set<Entry> {
    set l, e | l in logs && l >= from && e in logs[l] :: e
  }

  function Current(d: Disk): Meta {
    if d.current in d.manifests then ReadManifest(d.manifests[d.current]) else Meta({}, 0, 0, 0)
  }

  /** What a recovery from this disk would store. */
  ghost function Recovered(d: Disk): set<Entry> {
    Tables(d.tables, Current(d).files) + Logs(d.logs, Current(d).log)
  }

  // ----- steps

  ghost predicate Increasing(ns: seq<nat>) {
    forall i, j :: 0 <= i < j < |ns| ==> ns[i] < ns[j]
  }

  /** DBImpl::Recover replays every log at or above the manifest's log number. */
  ghost predicate LogsToReplay(d: Disk, from: nat, todo: seq<nat>) {
    Increasing(todo) && forall l :: l in todo <==> l in d.logs && l >= from
  }

  function LastOf(es: seq<Entry>, last: nat): nat {
    if es == [] then last
    else if es[|es| - 1].key.sequence > last then es[|es| - 1].key.sequence else last
  }

  /** The outputs may replace the inputs: what they lack no read from `snapshot` on needs,
      given the other tables and the logs in use. */
  ghost predicate Justified(d: Disk, files: set<nat>, log: nat, ins: set<nat>, outs: set<nat>, snapshot: nat) {
    var inputs, outputs := Tables(d.tables, ins), Tables(d.tables, outs);
    && outputs <= inputs
    && HiddenAreDropped(inputs, outputs, snapshot)
    && DropsAreJust(Tables(d.tables, files - ins) + Logs(d.logs, log), inputs, outputs, snapshot)
  }

  ghost predicate SysNext(s: Sys, ev: Event, s': Sys) {
    if s.proc.None? then DownNext(s, ev, s') else UpNext(s, s.proc.value, ev, s')
  }

  /** Nothing runs: all that can happen is an open. */
  ghost predicate DownNext(s: Sys, ev: Event, s': Sys) {
    var m := Current(s.disk);
    match ev
    case Open(todo) =>
      && LogsToReplay(s.disk, m.log, todo)
      && s' == s.(proc := Some(Proc(false, m.files, m.log, m.next + 1, m.last, m.next, 0, {}, None, [],
                                    Recovering(todo, 0, {}))))
    case _ => false
  }

  ghost predicate UpNext(s: Sys, v: Proc, ev: Event, s': Sys) {
    match ev
    case Crash =>
      s' == Sys(s.disk, None, s.hist + v.flying, s.floor)
    case _ =>
      && s'.proc.Some?
      && if ev.LogWrite? || ev.Acknowledge? || ev.SwitchLog? then WriterNext(s, v, ev, s', s'.proc.value)
         else if ev.Open? then false
         else if ev.RecoverTable? || ev.RecoverLogDone? || ev.OpenLog? then RecoveryNext(s, v, ev, s', s'.proc.value)
         else BackgroundNext(s, v, ev, s', s'.proc.value)
  }

  /** DBImpl::Write and the log switch of MakeRoomForWrite. */
  ghost predicate WriterNext(s: Sys, v: Proc, ev: Event, s': Sys, v': Proc) {
    var d := s.disk;
    && v.open
    && match ev
       case LogWrite(es) =>
         && v.flying == [] && es != [] && IsBatch(es, v.last) && v.last + |es| < MAX_SEQUENCE && v.logfile in d.logs
         && v' == v.(flying := es)
         && s' == s.(disk := d.(logs := d.logs[v.logfile := d.logs[v.logfile] + es]), proc := Some(v'))
       case Acknowledge =>
         && v' == v.(flying := [], mem := v.mem + Elems(v.flying), last := v.last + |v.flying|)
         && s' == s.(proc := Some(v'), hist := s.hist + v.flying)
       case SwitchLog =>
         && v.flying == [] && v.imm.None?
         && v' == v.(logfile := v.next, next := v.next + 1, imm := Some(v.mem), mem := {})
         && s' == s.(disk := d.(logs := d.logs[v.next := []]), proc := Some(v'))
       case _ => false
  }

  /** Flush and compaction: write tables, then LogAndApply; file deletion. */
  ghost predicate BackgroundNext(s: Sys, v: Proc, ev: Event, s': Sys, v': Proc) {
    var d := s.disk;
    match ev
    case StartFlush =>
      && v.open && v.job == Idle && v.imm.Some?
      && v' == v.(job := Building(true, {}, {})) && s' == s.(proc := Some(v'))
    case StartCompaction(ins) =>
      && v.open && v.job == Idle && ins <= v.files
      && v' == v.(job := Building(false, ins, {})) && s' == s.(proc := Some(v'))
    case WriteTable(contents) =>
      && v.job.Building?
      && v' == v.(next := v.next + 1, job := v.job.(outs := v.job.outs + {v.next}))
      && s' == s.(disk := d.(tables := d.tables[v.next := contents]), proc := Some(v'))
    case PrepareFlush =>
      && v.job.Building? && v.job.flush && v.imm.Some? && Tables(d.tables, v.job.outs) == v.imm.value
      && v' == v.(job := Applying(Edit({}, v.job.outs, Some(v.logfile), Some(v.next), Some(v.last)), Prepared, true))
      && s' == s.(proc := Some(v'))
    case PrepareCompaction(snapshot) =>
      && v.job.Building? && !v.job.flush && snapshot <= v.last
      && Justified(d, v.files, v.log, v.job.ins, v.job.outs, snapshot)
      && v' == v.(job := Applying(Edit(v.job.ins, v.job.outs, Some(v.log), Some(v.next), Some(v.last)), Prepared,
                                  false))
      && s' == s.(proc := Some(v'), floor := if snapshot > s.floor then snapshot else s.floor)
    case WriteSnapshot =>
      && !v.open && v.job.Applying? && v.job.phase == Prepared
      && v' == v.(job := v.job.(phase := Snapshotted))
      && s' == s.(disk := d.(manifests := d.manifests[v.manifest := [Edit({}, v.files, None, None, None)]]),
                  proc := Some(v'))
    case AppendEdit =>
      && v.job.Applying? && v.job.phase == (if v.open then Prepared else Snapshotted) && v.manifest in d.manifests
      && v' == v.(job := v.job.(phase := Logged))
      && s' == s.(disk := d.(manifests := d.manifests[v.manifest := d.manifests[v.manifest] + [v.job.edit]]),
                  proc := Some(v'))
    case SetCurrent =>
      && !v.open && v.job.Applying? && v.job.phase == Logged
      && v' == v.(job := v.job.(phase := Switched))
      && s' == s.(disk := d.(current := v.manifest), proc := Some(v'))
    case Install =>
      && v.job.Applying? && v.job.phase == (if v.open then Logged else Switched)
      && v' == v.(open := true, job := Idle, files := v.files - v.job.edit.del + v.job.edit.add,
                  log := if v.job.edit.log.Some? then v.job.edit.log.value else v.log,
                  imm := if v.job.flush then None else v.imm)
      && s' == s.(proc := Some(v'))
    case DeleteTable(n) =>
      && v.open && v.job == Idle && n !in v.files && v' == v
      && s' == s.(disk := d.(tables := d.tables - {n}))
    case DeleteLog(n) =>
      && v.open && v.job == Idle && n < v.log && v' == v
      && s' == s.(disk := d.(logs := d.logs - {n}))
    case DeleteManifest(n) =>
      && v.open && v.job == Idle && n < v.manifest && v' == v
      && s' == s.(disk := d.(manifests := d.manifests - {n}))
    case _ => false
  }

  /** RecoverLogFile: the records of each log, oldest log first, go to new tables
      in order; then DB::Open makes a log and prepares the first edit. */
  ghost predicate RecoveryNext(s: Sys, v: Proc, ev: Event, s': Sys, v': Proc) {
    var d := s.disk;
    && v.job.Recovering?
    && match ev
       case RecoverTable(upto) =>
         && v.job.todo != [] && v.job.todo[0] in d.logs && v.job.pos < upto <= |d.logs[v.job.todo[0]]|
         && v' == v.(next := v.next + 1, job := v.job.(pos := upto, built := v.job.built + {v.next}))
         && s' == s.(disk := d.(tables := d.tables[v.next := Elems(d.logs[v.job.todo[0]][v.job.pos..upto])]),
                     proc := Some(v'))
       case RecoverLogDone =>
         && v.job.todo != [] && v.job.todo[0] in d.logs && v.job.pos == |d.logs[v.job.todo[0]]|
         && v' == v.(next := if v.next <= v.job.todo[0] then v.job.todo[0] + 1 else v.next,
                     last := LastOf(d.logs[v.job.todo[0]], v.last),
                     job := v.job.(todo := v.job.todo[1..], pos := 0))
         && s' == s.(proc := Some(v'))
       case OpenLog =>
         && v.job.todo == []
         && v' == v.(logfile := v.next, next := v.next + 1,
                     job := Applying(Edit({}, v.job.built, Some(v.next), Some(v.next + 1), Some(v.last)), Prepared,
                                     false))
         && s' == s.(disk := d.(logs := d.logs[v.next := []]), proc := Some(v'))
       case _ => false
  }

  /** A database just created by NewDB. */
  const NEW_DB := Sys(Disk(map[], map[], map[1 := [Edit({}, {}, Some(0), Some(2), Some(0))]], 1), None, [], 0)
}
