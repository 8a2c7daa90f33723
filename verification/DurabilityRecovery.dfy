/** Recovery can always run to its end: from every state that a crash leaves
    behind some sequence of steps opens the database with the same history. */
module DurabilityRecovery {
  import opened Format
  import opened Lsm
  import opened Durability
  import opened DurabilityInv
  import opened DurabilityRuns

  ghost predicate Steps(s: Sys, s': Sys) {
    exists ev :: SysNext(s, ev, s')
  }

  /** Some run of `n` steps goes from `s` to `s'`. */
  ghost predicate Leads(s: Sys, n: nat, s': Sys)
    decreases n
  {
    if n == 0 then s == s' else exists mid :: Steps(s, mid) && Leads(mid, n - 1, s')
  }

  lemma OneStep(s: Sys, ev: Event, s': Sys)
    requires SysNext(s, ev, s')
    ensures Leads(s, 1, s')
  {
    assert Steps(s, s') && Leads(s', 0, s');
  }

  lemma {:induction false} Compose(s: Sys, n: nat, mid: Sys, m: nat, s': Sys)
    requires Leads(s, n, mid) && Leads(mid, m, s')
    ensures Leads(s, n + m, s')
    decreases n
  {
    hide Steps;
    if n > 0 {
      var next :| Steps(s, next) && Leads(next, n - 1, mid);
      Compose(next, n - 1, mid, m, s');
    }
  }

  ghost predicate Opened(s: Sys) {
    s.proc.Some? && s.proc.value.open && s.proc.value.job == Idle
  }

  /** The logs to replay, in order. */
  lemma SortedNumbers(ns: set<nat>) returns (r: seq<nat>)
    ensures Increasing(r) && forall n :: n in r <==> n in ns
    decreases |ns|
  {
    if ns == {} {
      r := [];
    } else {
      var top := Greatest(ns);
      var rest := SortedNumbers(ns - {top});
      assert forall i :: 0 <= i < |rest| ==> rest[i] in rest;
      r := rest + [top];
    }
  }

  lemma Greatest(ns: set<nat>) returns (top: nat)
    requires ns != {}
    ensures top in ns && forall n :: n in ns ==> n <= top
    decreases |ns|
  {
    top :| top in ns;
    if rest :| rest in ns && rest > top {
      assert rest in ns - {top};
      var next := Greatest(ns - {top});
      assert forall n :: n in ns ==> n == top || n in ns - {top};
      top := next;
    }
  }

  lemma SnapshotStep(s: Sys, v: Proc) returns (s': Sys, v': Proc)
    requires s.proc == Some(v) && !v.open && v.job.Applying? && v.job.phase == Prepared
    ensures Leads(s, 1, s') && s'.proc == Some(v') && s'.hist == s.hist
    ensures !v'.open && v'.job.Applying? && v'.job.phase == Snapshotted && v'.manifest in s'.disk.manifests
  {
    v' := v.(job := v.job.(phase := Snapshotted));
    var d := s.disk;
    s' := s.(disk := d.(manifests := d.manifests[v.manifest := [Edit({}, v.files, None, None, None)]]),
             proc := Some(v'));
    OneStep(s, WriteSnapshot, s');
  }

  lemma AppendStep(s: Sys, v: Proc) returns (s': Sys, v': Proc)
    requires s.proc == Some(v) && !v.open && v.job.Applying? && v.job.phase == Snapshotted
             && v.manifest in s.disk.manifests
    ensures Leads(s, 1, s') && s'.proc == Some(v') && s'.hist == s.hist
    ensures !v'.open && v'.job.Applying? && v'.job.phase == Logged
  {
    v' := v.(job := v.job.(phase := Logged));
    var d := s.disk;
    s' := s.(disk := d.(manifests := d.manifests[v.manifest := d.manifests[v.manifest] + [v.job.edit]]),
             proc := Some(v'));
    OneStep(s, AppendEdit, s');
  }

  lemma CurrentStep(s: Sys, v: Proc) returns (s': Sys, v': Proc)
    requires s.proc == Some(v) && !v.open && v.job.Applying? && v.job.phase == Logged
    ensures Leads(s, 1, s') && s'.proc == Some(v') && s'.hist == s.hist
    ensures !v'.open && v'.job.Applying? && v'.job.phase == Switched
  {
    v' := v.(job := v.job.(phase := Switched));
    s' := s.(disk := s.disk.(current := v.manifest), proc := Some(v'));
    OneStep(s, SetCurrent, s');
  }

  lemma InstallStep(s: Sys, v: Proc) returns (s': Sys)
    requires s.proc == Some(v) && !v.open && v.job.Applying? && v.job.phase == Switched
    ensures Leads(s, 1, s') && Opened(s') && s'.hist == s.hist
  {
    var e := v.job.edit;
    var v' := v.(open := true, job := Idle, files := v.files - e.del + e.add,
                 log := if e.log.Some? then e.log.value else v.log, imm := if v.job.flush then None else v.imm);
    s' := s.(proc := Some(v'));
    OneStep(s, Install, s');
  }

  /** From the first edit of a recovery to an open database. */
  lemma FinishOpen(s: Sys, v: Proc) returns (s': Sys)
    requires s.proc == Some(v) && !v.open && v.job.Applying? && v.job.phase == Prepared
    ensures Leads(s, 4, s') && Opened(s') && s'.hist == s.hist
  {
    hide Leads, Opened;
    var s1, v1 := SnapshotStep(s, v);
    var s2, v2 := AppendStep(s1, v1);
    var s3, v3 := CurrentStep(s2, v2);
    s' := InstallStep(s3, v3);
    Compose(s2, 1, s3, 1, s');
    Compose(s1, 1, s2, 2, s');
    Compose(s, 1, s1, 3, s');
  }

  lemma OpenLogStep(s: Sys, v: Proc) returns (s': Sys, v': Proc)
    requires s.proc == Some(v) && !v.open && v.job.Recovering? && v.job.todo == []
    ensures Leads(s, 1, s') && s'.proc == Some(v') && s'.hist == s.hist
    ensures !v'.open && v'.job.Applying? && v'.job.phase == Prepared
  {
    v' := v.(logfile := v.next, next := v.next + 1,
             job := Applying(Edit({}, v.job.built, Some(v.next), Some(v.next + 1), Some(v.last)), Prepared, false));
    s' := s.(disk := s.disk.(logs := s.disk.logs[v.next := []]), proc := Some(v'));
    OneStep(s, OpenLog, s');
  }

  /** Recovery is at a point from which it can go on. */
  ghost predicate CanReplay(logs: map<nat, seq<Entry>>, v: Proc) {
    && !v.open && v.job.Recovering?
    && (forall l :: l in v.job.todo ==> l in logs)
    && (v.job.todo != [] ==> v.job.todo[0] in logs && v.job.pos <= |logs[v.job.todo[0]]|)
  }

  lemma TableStep(s: Sys, v: Proc) returns (s': Sys, v': Proc)
    requires s.proc == Some(v) && CanReplay(s.disk.logs, v) && v.job.todo != []
             && v.job.pos < |s.disk.logs[v.job.todo[0]]|
    ensures Leads(s, 1, s') && s'.proc == Some(v') && s'.hist == s.hist && s'.disk.logs == s.disk.logs
    ensures CanReplay(s'.disk.logs, v') && v'.job.todo == v.job.todo && v'.job.pos == |s.disk.logs[v.job.todo[0]]|
  {
    var d, log := s.disk, s.disk.logs[v.job.todo[0]];
    v' := v.(next := v.next + 1, job := v.job.(pos := |log|, built := v.job.built + {v.next}));
    s' := s.(disk := d.(tables := d.tables[v.next := Elems(log[v.job.pos..|log|])]), proc := Some(v'));
    OneStep(s, RecoverTable(|log|), s');
  }

  lemma DoneStep(s: Sys, v: Proc) returns (s': Sys, v': Proc)
    requires s.proc == Some(v) && CanReplay(s.disk.logs, v) && v.job.todo != []
             && v.job.pos == |s.disk.logs[v.job.todo[0]]|
    ensures Leads(s, 1, s') && s'.proc == Some(v') && s'.hist == s.hist && s'.disk.logs == s.disk.logs
    ensures CanReplay(s'.disk.logs, v') && v'.job.todo == v.job.todo[1..]
  {
    var todo, log := v.job.todo, s.disk.logs[v.job.todo[0]];
    v' := v.(next := if v.next <= todo[0] then todo[0] + 1 else v.next, last := LastOf(log, v.last),
             job := v.job.(todo := todo[1..], pos := 0));
    s' := s.(proc := Some(v'));
    assert forall l :: l in todo[1..] ==> l in todo;
    OneStep(s, RecoverLogDone, s');
  }

  /** Replay what is left of the logs, then finish. */
  lemma FinishRecovery(s: Sys, v: Proc) returns (n: nat, s': Sys)
    requires s.proc == Some(v) && CanReplay(s.disk.logs, v)
    ensures Leads(s, n, s') && Opened(s') && s'.hist == s.hist
    decreases |v.job.todo|, if v.job.todo != [] then |s.disk.logs[v.job.todo[0]]| - v.job.pos else 0
  {
    hide Leads, Opened;
    if v.job.todo == [] {
      var s1, v1 := OpenLogStep(s, v);
      s' := FinishOpen(s1, v1);
      Compose(s, 1, s1, 4, s');
      n := 5;
    } else {
      var s1, v1;
      if v.job.pos < |s.disk.logs[v.job.todo[0]]| {
        s1, v1 := TableStep(s, v);
      } else {
        s1, v1 := DoneStep(s, v);
      }
      n, s' := FinishRecovery(s1, v1);
      Compose(s, 1, s1, n, s');
      n := 1 + n;
    }
  }

  lemma OpenStep(s: Sys) returns (s': Sys, v': Proc)
    requires s.proc.None?
    ensures Leads(s, 1, s') && s'.proc == Some(v') && CanReplay(s'.disk.logs, v') && s'.hist == s.hist
  {
    var m := Current(s.disk);
    var todo := SortedNumbers(set l | l in s.disk.logs && l >= m.log);
    assert todo != [] ==> todo[0] in todo;
    v' := Proc(false, m.files, m.log, m.next + 1, m.last, m.next, 0, {}, None, [], Recovering(todo, 0, {}));
    s' := s.(proc := Some(v'));
    OneStep(s, Open(todo), s');
  }

  /** After a crash opening the database can always run to its end, and it leaves
      the history as the crash left it. */
  lemma RecoveryCompletes(s: Sys) returns (n: nat, s': Sys)
    requires s.proc.None?
    ensures Leads(s, n, s') && Opened(s') && s'.hist == s.hist
  {
    var s1, v1 := OpenStep(s);
    n, s' := FinishRecovery(s1, v1);
    Compose(s, 1, s1, n, s');
    n := 1 + n;
  }

  // ----- an open database can go on

  lemma LogIsOpen(s: Sys, v: Proc)
    requires SysInv(s) && s.proc == Some(v) && v.open
    ensures v.logfile in s.disk.logs
  {
    hide DiskOk, OpenJobOk;
  }

  lemma LogStep(s: Sys, v: Proc, es: seq<Entry>) returns (s': Sys)
    requires s.proc == Some(v) && v.open && v.flying == [] && v.logfile in s.disk.logs
    requires es != [] && IsBatch(es, v.last) && v.last + |es| < MAX_SEQUENCE
    ensures Leads(s, 1, s') && s'.proc == Some(v.(flying := es)) && s'.hist == s.hist
  {
    hide IsBatch;
    var d := s.disk;
    s' := s.(disk := d.(logs := d.logs[v.logfile := d.logs[v.logfile] + es]), proc := Some(v.(flying := es)));
    OneStep(s, LogWrite(es), s');
  }

  lemma AcknowledgeStep(s: Sys, v: Proc) returns (s': Sys)
    requires s.proc == Some(v) && v.open
    ensures Leads(s, 1, s') && s'.hist == s.hist + v.flying
    ensures s'.proc == Some(v.(flying := [], mem := v.mem + Elems(v.flying), last := v.last + |v.flying|))
  {
    s' := s.(proc := Some(v.(flying := [], mem := v.mem + Elems(v.flying), last := v.last + |v.flying|)),
             hist := s.hist + v.flying);
    OneStep(s, Acknowledge, s');
  }

  /** A group of writes can always be logged and acknowledged. */
  lemma WriteCompletes(s: Sys, v: Proc, es: seq<Entry>) returns (s': Sys)
    requires SysInv(s) && s.proc == Some(v) && v.open && v.flying == []
    requires es != [] && IsBatch(es, v.last) && v.last + |es| < MAX_SEQUENCE
    ensures Leads(s, 2, s') && s'.hist == s.hist + es
    ensures s'.proc == Some(v.(mem := v.mem + Elems(es), last := v.last + |es|))
  {
    hide Leads, SysInv;
    LogIsOpen(s, v);
    var s1 := LogStep(s, v, es);
    s' := AcknowledgeStep(s1, v.(flying := es));
    Compose(s, 1, s1, 1, s');
  }

  lemma OpenAppendStep(s: Sys, v: Proc) returns (s': Sys, v': Proc)
    requires s.proc == Some(v) && v.open && v.job.Applying? && v.job.phase == Prepared
             && v.manifest in s.disk.manifests
    ensures Leads(s, 1, s') && s' == s.(disk := s'.disk, proc := Some(v'))
    ensures s'.disk.tables == s.disk.tables && v' == v.(job := v.job.(phase := Logged))
  {
    v' := v.(job := v.job.(phase := Logged));
    var d := s.disk;
    s' := s.(disk := d.(manifests := d.manifests[v.manifest := d.manifests[v.manifest] + [v.job.edit]]),
             proc := Some(v'));
    OneStep(s, AppendEdit, s');
  }

  lemma OpenInstallStep(s: Sys, v: Proc) returns (s': Sys, v': Proc)
    requires s.proc == Some(v) && v.open && v.job.Applying? && v.job.phase == Logged && v.job.edit.log.Some?
    ensures Leads(s, 1, s') && s' == s.(proc := Some(v'))
    ensures v' == v.(job := Idle, files := v.files - v.job.edit.del + v.job.edit.add, log := v.job.edit.log.value,
                     imm := if v.job.flush then None else v.imm)
  {
    v' := v.(job := Idle, files := v.files - v.job.edit.del + v.job.edit.add, log := v.job.edit.log.value,
             imm := if v.job.flush then None else v.imm);
    s' := s.(proc := Some(v'));
    OneStep(s, Install, s');
  }

  /** LogAndApply of a prepared edit can run to its end. */
  lemma InstallCompletes(s: Sys, v: Proc) returns (s': Sys, v': Proc)
    requires s.proc == Some(v) && v.open && v.job.Applying? && v.job.phase == Prepared && v.job.edit.log.Some?
             && v.manifest in s.disk.manifests
    ensures Leads(s, 2, s') && s' == s.(disk := s'.disk, proc := Some(v')) && s'.disk.tables == s.disk.tables
    ensures v' == v.(job := Idle, files := v.files - v.job.edit.del + v.job.edit.add, log := v.job.edit.log.value,
                     imm := if v.job.flush then None else v.imm)
  {
    hide Leads;
    var s1, v1 := OpenAppendStep(s, v);
    s', v' := OpenInstallStep(s1, v1);
    Compose(s, 1, s1, 1, s');
  }

  lemma InManifests(s: Sys, v: Proc)
    requires SysInv(s) && s.proc == Some(v) && v.open
    ensures v.manifest in s.disk.manifests
  {
  }

  lemma StartStep(s: Sys, v: Proc, flush: bool, ins: set<nat>) returns (s': Sys)
    requires s.proc == Some(v) && v.open && v.job == Idle
    requires if flush then v.imm.Some? && ins == {} else ins <= v.files
    ensures Leads(s, 1, s') && s' == s.(proc := Some(v.(job := Building(flush, ins, {}))))
  {
    s' := s.(proc := Some(v.(job := Building(flush, ins, {}))));
    OneStep(s, if flush then StartFlush else StartCompaction(ins), s');
  }

  lemma WriteStep(s: Sys, v: Proc, contents: set<Entry>) returns (s': Sys, v': Proc)
    requires s.proc == Some(v) && v.job.Building?
    ensures Leads(s, 1, s') && s' == s.(disk := s.disk.(tables := s.disk.tables[v.next := contents]), proc := Some(v'))
    ensures v' == v.(next := v.next + 1, job := v.job.(outs := v.job.outs + {v.next}))
  {
    v' := v.(next := v.next + 1, job := v.job.(outs := v.job.outs + {v.next}));
    s' := s.(disk := s.disk.(tables := s.disk.tables[v.next := contents]), proc := Some(v'));
    OneStep(s, WriteTable(contents), s');
  }

  /** One new table is written for a flush or a compaction. */
  lemma TableBuilt(s: Sys, v: Proc, flush: bool, ins: set<nat>, contents: set<Entry>) returns (s': Sys, v': Proc)
    requires s.proc == Some(v) && v.open && v.job == Idle
    requires if flush then v.imm.Some? && ins == {} else ins <= v.files
    ensures Leads(s, 2, s') && s' == s.(disk := s.disk.(tables := s.disk.tables[v.next := contents]), proc := Some(v'))
    ensures v' == v.(next := v.next + 1, job := Building(flush, ins, {v.next}))
  {
    hide Leads;
    var s1 := StartStep(s, v, flush, ins);
    s', v' := WriteStep(s1, s1.proc.value, contents);
    assert {} + {v.next} == {v.next};
    Compose(s, 1, s1, 1, s');
  }

  lemma PrepareStep(s: Sys, v: Proc) returns (s': Sys, v': Proc)
    requires s.proc == Some(v) && v.job.Building?
    requires v.job.flush ==> v.imm.Some? && Tables(s.disk.tables, v.job.outs) == v.imm.value
    requires !v.job.flush ==> Justified(s.disk, v.files, v.log, v.job.ins, v.job.outs, 0)
    ensures Leads(s, 1, s') && s' == s.(proc := Some(v'))
    ensures var e := Edit(if v.job.flush then {} else v.job.ins, v.job.outs,
                          Some(if v.job.flush then v.logfile else v.log), Some(v.next), Some(v.last));
            v' == v.(job := Applying(e, Prepared, v.job.flush))
  {
    hide Justified;
    var e := Edit(if v.job.flush then {} else v.job.ins, v.job.outs, Some(if v.job.flush then v.logfile else v.log),
                  Some(v.next), Some(v.last));
    v' := v.(job := Applying(e, Prepared, v.job.flush));
    s' := s.(proc := Some(v'));
    OneStep(s, if v.job.flush then PrepareFlush else PrepareCompaction(0), s');
  }

  /** An immutable memtable can always be flushed to a table of the version. */
  lemma FlushCompletes(s: Sys, v: Proc) returns (s': Sys, v': Proc)
    requires SysInv(s) && s.proc == Some(v) && v.open && v.job == Idle && v.imm.Some?
    ensures Leads(s, 5, s') && s'.proc == Some(v') && s'.hist == s.hist
    ensures v' == v.(imm := None, files := v.files + {v.next}, log := v.logfile, next := v.next + 1)
    ensures s'.disk.tables == s.disk.tables[v.next := v.imm.value]
  {
    hide Leads, SysInv;
    InManifests(s, v);
    OneTable(s.disk.tables, v.next, v.imm.value);
    var s1, v1 := TableBuilt(s, v, true, {}, v.imm.value);
    var s2, v2 := PrepareStep(s1, v1);
    s', v' := InstallCompletes(s2, v2);
    assert v.files - {} + {v.next} == v.files + {v.next};
    Compose(s1, 1, s2, 2, s');
    Compose(s, 2, s1, 3, s');
  }

  lemma OneTable(tables: map<nat, set<Entry>>, n: nat, es: set<Entry>)
    ensures Tables(tables[n := es], {n}) == es
  {
    TablesAdd(tables, {}, n, es);
    assert {} + {n} == {n} && Tables(tables, {}) == {};
  }

  /** Any tables of the version can be compacted into one. */
  lemma CompactionCompletes(s: Sys, v: Proc, ins: set<nat>) returns (s': Sys, v': Proc)
    requires SysInv(s) && s.proc == Some(v) && v.open && v.job == Idle && ins <= v.files
    ensures Leads(s, 5, s') && s'.proc == Some(v') && s'.hist == s.hist
    ensures v' == v.(files := v.files - ins + {v.next}, next := v.next + 1)
    ensures s'.disk.tables == s.disk.tables[v.next := Tables(s.disk.tables, ins)]
  {
    hide Leads, SysInv, Justified;
    InManifests(s, v);
    NothingDropped(s, v, ins);
    var s1, v1 := TableBuilt(s, v, false, ins, Tables(s.disk.tables, ins));
    var s2, v2 := PrepareStep(s1, v1);
    s', v' := InstallCompletes(s2, v2);
    Compose(s1, 1, s2, 2, s');
    Compose(s, 2, s1, 3, s');
  }

  /** A compaction that keeps everything is justified. */
  lemma NothingDropped(s: Sys, v: Proc, ins: set<nat>)
    requires SysInv(s) && s.proc == Some(v) && v.open && v.job == Idle && ins <= v.files
    ensures var d := s.disk.(tables := s.disk.tables[v.next := Tables(s.disk.tables, ins)]);
            Justified(d, v.files, v.log, ins, {v.next}, 0)
  {
    var tables, contents := s.disk.tables, Tables(s.disk.tables, ins);
    OneTable(tables, v.next, contents);
    assert v.next !in ins;
    TablesSame(tables, tables[v.next := contents], ins);
    forall p | p in contents
      ensures p.key.sequence > 0
    {
      assert p in Tables(tables, v.files);
    }
  }
}
