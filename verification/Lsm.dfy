/** The tree as a state machine: memtables, level 0 and the sorted levels, with
    flush, trivial move and compaction as whole steps (db/db_impl.cc,
    db/version_set.cc).  `State` pairs the database with two history variables:
    the writes ever made and the least snapshot below which reads are not
    promised any more. */
module Lsm {
  import opened Format
  import opened Version

  datatype Db = Db(
    mem: seq<Entry>,
    imm: Option<seq<Entry>>,
    levels: seq<seq<File>>,
    lastSequence: nat,
    snapshots: seq<nat>,
    nextFile: nat)

  datatype State = State(db: Db, hist: seq<Entry>, floor: nat)

  datatype WriteOp = Put(key: UserKey, value: string) | Delete(key: UserKey)

  datatype Step =
    | Write(batch: seq<Entry>)
    | SwitchMemTable
    | Flush(level: nat, size: nat)
    | TrivialMove(from: nat, file: File)
    | Compact(from: nat, in0: seq<File>, in1: seq<File>, lo: UserKey, hi: UserKey, outs: seq<File>)
    | GetSnapshot
    | ReleaseSnapshot(index: nat)
    | Reopen(files: seq<File>, first: nat)

  // ----- what is stored

  function ImmEntries(db: Db): seq<Entry> {
    if db.imm.Some? then db.imm.value else []
  }

  ghost function TableEntries(levels: seq<seq<File>>): set<Entry> {
    set l, f, e | 0 <= l < |levels| && f in levels[l] && e in f.entries :: e
  }

  ghost function Stored(db: Db): set<Entry> {
    Elems(db.mem) + Elems(ImmEntries(db)) + TableEntries(db.levels)
  }

  // ----- writes

  function EntryOf(op: WriteOp, sequence: nat): Entry {
    match op
    case Put(k, v) => Entry(InternalKey(k, sequence, Value), v)
    case Delete(k) => Entry(InternalKey(k, sequence, Deletion), "")
  }

  /** The entries of a batch: consecutive sequence numbers in batch order. */
  function EntriesOf(ops: seq<WriteOp>, first: nat): (r: seq<Entry>)
    ensures |r| == |ops|
  {
    if ops == [] then []
    else EntriesOf(ops[..|ops| - 1], first) + [EntryOf(ops[|ops| - 1], first + |ops| - 1)]
  }

  /** What the operations of a caller do to a plain map. */
  function ApplyOps(m: map<UserKey, string>, ops: seq<WriteOp>): map<UserKey, string> {
    if ops == [] then m
    else
      var before := ApplyOps(m, ops[..|ops| - 1]);
      match ops[|ops| - 1]
      case Put(k, v) => before[k := v]
      case Delete(k) => before - {k}
  }

  /** Entries replay like the operations that they were made from. */
  lemma {:induction false} ReplayOps(hist: seq<Entry>, ops: seq<WriteOp>, first: nat)
    ensures Replay(hist + EntriesOf(ops, first)) == ApplyOps(Replay(hist), ops)
  {
    if ops == [] {
      assert hist + [] == hist;
    } else {
      var init, all := ops[..|ops| - 1], hist + EntriesOf(ops, first);
      ReplayOps(hist, init, first);
      assert all[..|all| - 1] == hist + EntriesOf(init, first);
    }
  }

  lemma {:induction false} EntriesPrefix(ops: seq<WriteOp>, first: nat, n: nat)
    requires n <= |ops|
    ensures EntriesOf(ops, first)[..n] == EntriesOf(ops[..n], first)
  {
    if n == |ops| {
      assert ops[..n] == ops;
    } else {
      EntriesPrefix(ops[..|ops| - 1], first, n);
      assert ops[..|ops| - 1][..n] == ops[..n];
    }
  }

  lemma {:induction false} EntriesAppend(ops: seq<WriteOp>, more: seq<WriteOp>, first: nat)
    ensures EntriesOf(ops + more, first) == EntriesOf(ops, first) + EntriesOf(more, first + |ops|)
    decreases |more|
  {
    if more == [] {
      assert ops + more == ops;
    } else {
      var init := more[..|more| - 1];
      EntriesAppend(ops, init, first);
      assert (ops + more)[..|ops + more| - 1] == ops + init;
    }
  }

  /** Entries numbered from the one after `last`. */
  ghost predicate IsBatch(es: seq<Entry>, last: nat) {
    forall i :: 0 <= i < |es| ==> es[i].key.sequence == last + 1 + i
  }

  lemma {:induction false} EntriesAreBatch(ops: seq<WriteOp>, last: nat)
    ensures IsBatch(EntriesOf(ops, last + 1), last)
    ensures forall i :: 0 <= i < |ops| ==> EntriesOf(ops, last + 1)[i] == EntryOf(ops[i], last + 1 + i)
  {
    if ops != [] {
      EntriesAreBatch(ops[..|ops| - 1], last);
    }
  }

  /** MemTable::Add: the skip list keeps its entries in key order. */
  function Insert(mem: seq<Entry>, e: Entry): (r: seq<Entry>)
  {
    if mem == [] || Less(e.key, mem[0].key) then [e] + mem else [mem[0]] + Insert(mem[1..], e)
  }

  function InsertAll(mem: seq<Entry>, es: seq<Entry>): (r: seq<Entry>)
    decreases es
  {
    if es == [] then mem else Insert(InsertAll(mem, es[..|es| - 1]), es[|es| - 1])
  }

  lemma {:induction false} InsertMembers(mem: seq<Entry>, e: Entry)
    ensures forall x :: x in Insert(mem, e) <==> x in mem || x == e
  {
    if mem != [] && !Less(e.key, mem[0].key) {
      InsertMembers(mem[1..], e);
      assert mem == [mem[0]] + mem[1..];
    }
  }

  lemma {:induction false} InsertSorted(mem: seq<Entry>, e: Entry)
    requires Sorted(mem) && forall x :: x in mem ==> x.key.sequence != e.key.sequence
    ensures Sorted(Insert(mem, e))
  {
    if mem != [] && !Less(e.key, mem[0].key) {
      assert mem[0] in mem;
      assert Less(mem[0].key, e.key);
      InsertSorted(mem[1..], e);
      InsertMembers(mem[1..], e);
      var rest := Insert(mem[1..], e);
      forall x | x in rest
        ensures Less(mem[0].key, x.key)
      {
      }
    }
  }

  lemma {:induction false} InsertAllMembers(mem: seq<Entry>, es: seq<Entry>)
    ensures forall x :: x in InsertAll(mem, es) <==> x in mem || x in es
    decreases es
  {
    if es != [] {
      var init, last := es[..|es| - 1], es[|es| - 1];
      InsertAllMembers(mem, init);
      InsertMembers(InsertAll(mem, init), last);
      assert es == init + [last];
    }
  }

  lemma {:induction false} InsertAllSorted(mem: seq<Entry>, es: seq<Entry>)
    requires Sorted(mem)
    requires forall i, j :: 0 <= i < j < |es| ==> es[i].key.sequence != es[j].key.sequence
    requires forall x, y :: x in mem && y in es ==> x.key.sequence != y.key.sequence
    ensures Sorted(InsertAll(mem, es))
    decreases es
  {
    if es != [] {
      var init, last := es[..|es| - 1], es[|es| - 1];
      InsertAllSorted(mem, init);
      InsertAllMembers(mem, init);
      assert last in es;
      forall x | x in InsertAll(mem, init)
        ensures x.key.sequence != last.key.sequence
      {
        if x in init {
          var i :| 0 <= i < |init| && init[i] == x;
        }
      }
      InsertSorted(InsertAll(mem, init), last);
    }
  }

  // ----- the drop rule

  /** IsBaseLevelForKey: no file two or more levels down covers the user key. */
  ghost predicate IsBase(levels: seq<seq<File>>, from: nat, u: UserKey)
    requires |levels| == NUM_LEVELS
  {
    forall l, f :: from + 2 <= l < NUM_LEVELS && f in levels[l] ==> !(f.smallest.user <= u <= f.largest.user)
  }

  /** last_sequence_for_key when the loop looks at entry `i`. */
  function LastSequenceForKey(merged: seq<Entry>, i: nat): nat
    requires i < |merged|
  {
    if i > 0 && merged[i - 1].key.user == merged[i].key.user then merged[i - 1].key.sequence else MAX_SEQUENCE
  }

  ghost predicate Dropped(merged: seq<Entry>, i: nat, snapshot: nat, levels: seq<seq<File>>, from: nat)
    requires i < |merged| && |levels| == NUM_LEVELS
  {
    || LastSequenceForKey(merged, i) <= snapshot
    || (merged[i].key.kind.Deletion? && merged[i].key.sequence <= snapshot && IsBase(levels, from, merged[i].key.user))
  }

  /** The entries among the first `n` that the compaction loop keeps. */
  ghost function Kept(merged: seq<Entry>, n: nat, snapshot: nat, levels: seq<seq<File>>, from: nat): seq<Entry>
    requires n <= |merged| && |levels| == NUM_LEVELS
  {
    if n == 0 then []
    else
      var rest := Kept(merged, n - 1, snapshot, levels, from);
      if Dropped(merged, n - 1, snapshot, levels, from) then rest else rest + [merged[n - 1]]
  }

  function Contents(files: seq<File>): seq<Entry> {
    if files == [] then [] else Contents(files[..|files| - 1]) + files[|files| - 1].entries
  }

  // ----- steps

  ghost predicate Updated(base: seq<File>, gone: seq<File>, more: seq<File>, result: seq<File>) {
    && InOrder(result)
    && forall f :: f in result <==> (f in base && f !in gone) || f in more
  }

  /** The inputs of a compaction.  [lo, hi] covers the upper inputs; the lower
      inputs are the files of the next level that meet it; no other level-0 file
      meets it. */
  ghost predicate Chosen(levels: seq<seq<File>>, from: nat, in0: seq<File>, in1: seq<File>, lo: UserKey, hi: UserKey) {
    && |levels| == NUM_LEVELS && from + 1 < NUM_LEVELS && in0 != []
    && (forall f :: f in in0 ==> f in levels[from] && lo <= f.smallest.user && f.largest.user <= hi)
    && (forall f :: f in in1 <==> f in levels[from + 1] && Overlaps(f, Some(lo), Some(hi)))
    && (from == 0 ==> forall f :: f in levels[0] && f !in in0 ==> !Overlaps(f, Some(lo), Some(hi)))
  }

  /** Inputs leave levels `from` and `from + 1`; outputs enter `from + 1`. */
  ghost predicate Replaced(levels: seq<seq<File>>, from: nat, in0: seq<File>, in1: seq<File>, outs: seq<File>,
                           levels': seq<seq<File>>)
    requires |levels| == NUM_LEVELS && from + 1 < NUM_LEVELS
  {
    && |levels'| == NUM_LEVELS
    && (forall l :: 0 <= l < NUM_LEVELS && l != from && l != from + 1 ==> levels'[l] == levels[l])
    && Updated(levels[from], in0, [], levels'[from])
    && Updated(levels[from + 1], in1, outs, levels'[from + 1])
  }

  function SmallestSnapshot(db: Db): nat {
    if db.snapshots == [] then db.lastSequence else db.snapshots[0]
  }

  /** The merged input is sorted and holds exactly the entries of the inputs. */
  ghost predicate IsMergeOf(merged: seq<Entry>, files: seq<File>) {
    && Sorted(merged)
    && (forall e :: e in merged <==> exists f :: f in files && e in f.entries)
  }

  ghost predicate NumbersFrom(outs: seq<File>, first: nat, limit: nat) {
    && (forall i :: 0 <= i < |outs| ==> first <= outs[i].number < limit)
    && (forall i, j :: 0 <= i < j < |outs| ==> outs[i].number < outs[j].number)
  }

  ghost predicate CompactionResult(db: Db, from: nat, in0: seq<File>, in1: seq<File>, merged: seq<Entry>,
                                   outs: seq<File>)
    requires |db.levels| == NUM_LEVELS
  {
    && IsMergeOf(merged, in0 + in1)
    && (forall f :: f in outs ==> FileOk(f))
    && Contents(outs) == Kept(merged, |merged|, SmallestSnapshot(db), db.levels, from)
  }

  ghost predicate IsCompaction(db: Db, from: nat, in0: seq<File>, in1: seq<File>, outs: seq<File>)
    requires |db.levels| == NUM_LEVELS
  {
    exists merged :: CompactionResult(db, from, in0, in1, merged, outs)
  }

  function FileOf(number: nat, size: nat, es: seq<Entry>): File
    requires es != []
  {
    File(number, size, es[0].key, es[|es| - 1].key, es)
  }

  ghost predicate FlushTo(levels: seq<seq<File>>, f: File, level: nat, levels': seq<seq<File>>) {
    && |levels| == NUM_LEVELS == |levels'| && level <= MAX_MEM_COMPACT_LEVEL
    && (level > 0 ==> FreeDownTo(levels, level, f.smallest.user, f.largest.user))
    && (forall l :: 0 <= l < NUM_LEVELS && l != level ==> levels'[l] == levels[l])
    && Updated(levels[level], [], [f], levels'[level])
  }

  ghost predicate AllOlder(f: File, g: File) {
    forall x, y :: x in f.entries && y in g.entries ==> x.key.sequence < y.key.sequence
  }

  ghost predicate OldestFirst(files: seq<File>) {
    forall i, j :: 0 <= i < j < |files| ==> AllOlder(files[i], files[j])
  }

  /** A crash and the recovery after it: what was in the memtables is in the logs, and
      goes to new level-0 tables, oldest first.  Numbers go on from the manifest's. */
  ghost predicate Reopened(db: Db, files: seq<File>, first: nat, db': Db)
    requires |db.levels| == NUM_LEVELS
  {
    && (forall l, f :: At(db.levels, l, f) ==> f.number < first)
    && first <= db'.nextFile && NumbersFrom(files, first, db'.nextFile)
    && (forall f :: f in files ==> FileOk(f)) && OldestFirst(files)
    && (forall e :: e in Contents(files) <==> e in db.mem || e in ImmEntries(db))
    && |db'.levels| == NUM_LEVELS && Updated(db.levels[0], [], files, db'.levels[0])
    && (forall l :: 1 <= l < NUM_LEVELS ==> db'.levels[l] == db.levels[l])
    && db' == Db([], None, db'.levels, db.lastSequence, [], db'.nextFile)
  }

  ghost predicate Next(s: State, step: Step, s': State)
    requires |s.db.levels| == NUM_LEVELS
  {
    var db, db' := s.db, s'.db;
    match step
    case Write(es) =>
      && db.lastSequence + |es| < MAX_SEQUENCE && IsBatch(es, db.lastSequence)
      && db' == db.(mem := InsertAll(db.mem, es), lastSequence := db.lastSequence + |es|)
      && s'.hist == s.hist + es && s'.floor == s.floor
    case SwitchMemTable =>
      && db.imm.None?
      && db' == db.(mem := [], imm := Some(db.mem), nextFile := db.nextFile + 1)
      && s'.hist == s.hist && s'.floor == s.floor
    case Flush(level, size) =>
      && db.imm.Some?
      && db' == db.(imm := None, levels := db'.levels, nextFile := db.nextFile + 1)
      && (if db.imm.value == [] then db'.levels == db.levels
          else FlushTo(db.levels, FileOf(db.nextFile, size, db.imm.value), level, db'.levels))
      && s'.hist == s.hist && s'.floor == s.floor
    case TrivialMove(from, f) =>
      && Chosen(db.levels, from, [f], [], f.smallest.user, f.largest.user)
      && Replaced(db.levels, from, [f], [], [f], db'.levels)
      && db' == db.(levels := db'.levels)
      && s'.hist == s.hist && s'.floor == s.floor
    case Compact(from, in0, in1, lo, hi, outs) =>
      && Chosen(db.levels, from, in0, in1, lo, hi)
      && IsCompaction(db, from, in0, in1, outs)
      && db.nextFile <= db'.nextFile && NumbersFrom(outs, db.nextFile, db'.nextFile)
      && Replaced(db.levels, from, in0, in1, outs, db'.levels)
      && db' == db.(levels := db'.levels, nextFile := db'.nextFile)
      && s'.hist == s.hist
      && s'.floor == if SmallestSnapshot(db) > s.floor then SmallestSnapshot(db) else s.floor
    case GetSnapshot =>
      && db' == db.(snapshots := db.snapshots + [db.lastSequence])
      && s'.hist == s.hist && s'.floor == s.floor
    case ReleaseSnapshot(i) =>
      && i < |db.snapshots|
      && db' == db.(snapshots := db.snapshots[..i] + db.snapshots[i + 1..])
      && s'.hist == s.hist && s'.floor == s.floor
    case Reopen(files, first) =>
      && Reopened(db, files, first, db')
      && s'.hist == s.hist && s'.floor == s.floor
  }

  const INIT := State(Db([], None, [[], [], [], [], [], [], []], 0, [], 2), [], 0)

  // ----- invariants of every run

  ghost predicate FromHist(hist: seq<Entry>, e: Entry) {
    1 <= e.key.sequence <= |hist| && hist[e.key.sequence - 1] == e
  }

  ghost predicate HistOk(hist: seq<Entry>) {
    && |hist| < MAX_SEQUENCE
    && forall i :: 0 <= i < |hist| ==> hist[i].key.sequence == i + 1
  }

  predicate At(levels: seq<seq<File>>, l: int, f: File) {
    0 <= l < |levels| && f in levels[l]
  }

  ghost predicate NumbersOnce(levels: seq<seq<File>>) {
    forall l, m, f, g :: At(levels, l, f) && At(levels, m, g) && f.number == g.number ==> l == m && f == g
  }

  ghost predicate EntriesOnce(levels: seq<seq<File>>) {
    forall l, m, f, g, e :: At(levels, l, f) && At(levels, m, g) && e in f.entries && e in g.entries ==>
      l == m && f == g
  }

  /** Every level above 0 is sorted and pairwise disjoint; files, numbers and
      entries are in one place each. */
  ghost predicate LevelsOk(levels: seq<seq<File>>, nextFile: nat) {
    && |levels| == NUM_LEVELS
    && (forall l, f :: At(levels, l, f) ==> FileOk(f) && f.number < nextFile)
    && (forall l :: 0 <= l < NUM_LEVELS ==> InOrder(levels[l]))
    && (forall l :: 1 <= l < NUM_LEVELS ==> Disjoint(levels[l]))
    && NumbersOnce(levels)
    && EntriesOnce(levels)
  }

  ghost predicate AllNewer(newer: set<Entry>, older: set<Entry>) {
    forall x, y :: x in newer && y in older ==> x.key.sequence > y.key.sequence
  }

  ghost predicate BaseInv(s: State) {
    match s
    case State(db, hist, _) =>
      && HistOk(hist) && db.lastSequence == |hist|
      && LevelsOk(db.levels, db.nextFile)
      && Sorted(db.mem) && Sorted(ImmEntries(db))
      && (forall e :: e in Stored(db) ==> FromHist(hist, e))
      && AllNewer(Elems(db.mem), Elems(ImmEntries(db)) + TableEntries(db.levels))
      && AllNewer(Elems(ImmEntries(db)), TableEntries(db.levels))
  }
}
