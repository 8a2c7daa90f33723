/** The writer queue (DBImpl::Write, DBImpl::BuildBatchGroup in db/db_impl.cc).  The
    front writer leads: it merges batches behind it into a group, writes the group
    with the mutex released, and completes the group's writers.  Other threads may
    enqueue between any two methods. */
module WriteQueue {
  import opened Format
  import opened Lsm

  /** A waiting writer.  A request to flush has no batch. */
  datatype Writer = Writer(id: nat, batch: Option<seq<WriteOp>>, size: nat, sync: bool)

  /** A group ends with the writer `last`; `shared` if it was built in tmp_batch_. */
  datatype Group = Group(last: nat, updates: seq<WriteOp>, shared: bool)

  function OpsOf(w: Writer): seq<WriteOp> {
    if w.batch.Some? then w.batch.value else []
  }

  function Ops(ws: seq<Writer>): seq<WriteOp> {
    if ws == [] then [] else Ops(ws[..|ws| - 1]) + OpsOf(ws[|ws| - 1])
  }

  lemma {:induction false} OpsAppend(a: seq<Writer>, b: seq<Writer>)
    ensures Ops(a + b) == Ops(a) + Ops(b)
    decreases |b|
  {
    hide OpsOf;
    if b == [] {
      assert a + b == a;
    } else {
      var init, w := b[..|b| - 1], b[|b| - 1];
      assert (a + b)[..|a + b| - 1] == a + init;
      OpsAppend(a, init);
    }
  }

  ghost predicate DistinctIds(ws: seq<Writer>) {
    forall i, j :: 0 <= i < j < |ws| ==> ws[i].id != ws[j].id
  }

  /** No sync write is handled by a leader that does not sync. */
  ghost predicate SyncKept(ws: seq<Writer>, leader: Writer) {
    forall i :: 0 <= i < |ws| && ws[i].sync ==> leader.sync
  }

  /** The first `n` writers of the queue form the group. */
  ghost predicate IsGroup(queue: seq<Writer>, n: nat, g: Group) {
    && 1 <= n <= |queue| && queue[n - 1].id == g.last
    && g.updates == Ops(queue[..n])
    && SyncKept(queue[..n], queue[0])
  }

  function MaxSize(first: nat): nat {
    if first <= 131072 then first + 131072 else 1048576
  }

  function TotalSize(ws: seq<Writer>): nat {
    if ws == [] then 0
    else TotalSize(ws[..|ws| - 1]) + (if ws[|ws| - 1].batch.Some? then ws[|ws| - 1].size else 0)
  }

  /** Why a group stops before the writer `w`. */
  predicate Stops(leader: Writer, w: Writer, size: nat) {
    (w.sync && !leader.sync) || (w.batch.Some? && size + w.size > MaxSize(leader.size))
  }

  lemma OneMore(queue: seq<Writer>, i: nat)
    requires i < |queue|
    ensures Ops(queue[..i + 1]) == Ops(queue[..i]) + OpsOf(queue[i])
    ensures TotalSize(queue[..i + 1]) == TotalSize(queue[..i]) + (if queue[i].batch.Some? then queue[i].size else 0)
    ensures queue[..i + 1] == queue[..i] + [queue[i]]
  {
    assert queue[..i + 1][..i] == queue[..i];
  }

  lemma OnlyFirst(queue: seq<Writer>)
    requires queue != [] && queue[0].batch.Some?
    ensures Ops(queue[..1]) == queue[0].batch.value && TotalSize(queue[..1]) == queue[0].size
    ensures SyncKept(queue[..1], queue[0])
  {
    OneMore(queue, 0);
    assert queue[..0] == [] && [] + queue[0].batch.value == queue[0].batch.value;
  }

  /** A batch besides the leader's own is in the group. */
  ghost predicate SomeMerged(queue: seq<Writer>, n: nat)
    requires n <= |queue|
  {
    exists i :: 1 <= i < n && queue[i].batch.Some?
  }

  lemma OneMoreKept(queue: seq<Writer>, i: nat)
    requires 1 <= i < |queue|
    ensures SomeMerged(queue, i + 1) <==> SomeMerged(queue, i) || queue[i].batch.Some?
    ensures SyncKept(queue[..i], queue[0]) && (queue[i].sync ==> queue[0].sync) ==> SyncKept(queue[..i + 1], queue[0])
  {
    assert SomeMerged(queue, i) ==> SomeMerged(queue, i + 1);
  }

  /** A group has no more than a megabyte, and a small write waits for no more than 128
      kilobytes of others; and the next writer would break this, or asks for a sync that
      the leader does not make. */
  ghost predicate WholeGroup(queue: seq<Writer>, n: nat, g: Group)
    requires 1 <= n <= |queue|
  {
    var first, total := queue[0].size, TotalSize(queue[..n]);
    && (g.shared ==> total <= 1048576 && (first <= 131072 ==> total <= first + 131072))
    && (n < |queue| ==>
          || (queue[n].sync && !queue[0].sync)
          || (queue[n].batch.Some?
             && total + queue[n].size > if first <= 131072 then first + 131072 else 1048576))
  }

  /** BuildBatchGroup: the longest run of writers behind the front that fits. */
  method BuildBatchGroup(queue: seq<Writer>) returns (g: Group, ghost n: nat)
    requires queue != [] && queue[0].batch.Some?
    ensures IsGroup(queue, n, g)
    ensures n == |queue| || Stops(queue[0], queue[n], TotalSize(queue[..n]))
    ensures g.shared ==> TotalSize(queue[..n]) <= MaxSize(queue[0].size)
    ensures g.shared <==> SomeMerged(queue, n)
    ensures WholeGroup(queue, n, g)
  {
    hide Gathered, Stops;
    var first := queue[0];
    var size: nat, last: nat := first.size, first.id;
    var result, shared := first.batch.value, false;
    GatherFirst(queue);
    var i: nat := 1;
    while i < |queue| && !Stops(first, queue[i], size)
      invariant 1 <= i <= |queue| && Gathered(queue, i, size, Group(last, result, shared))
    {
      var w := queue[i];
      GatherStep(queue, i, size, Group(last, result, shared));
      if w.batch.Some? {
        size := size + w.size;
        shared := true;
        result := result + w.batch.value;
      }
      last := w.id;
      i := i + 1;
    }
    n := i;
    g := Group(last, result, shared);
    GatherDone(queue, i, size, g);
    GroupIsWhole(queue, i, g);
  }

  lemma GroupIsWhole(queue: seq<Writer>, n: nat, g: Group)
    requires 1 <= n <= |queue| && (n == |queue| || Stops(queue[0], queue[n], TotalSize(queue[..n])))
    requires g.shared ==> TotalSize(queue[..n]) <= MaxSize(queue[0].size)
    ensures WholeGroup(queue, n, g)
  {
    hide TotalSize;
  }

  /** The loop of BuildBatchGroup before writer `i`. */
  ghost predicate Gathered(queue: seq<Writer>, i: nat, size: nat, g: Group) {
    && IsGroup(queue, i, g) && size == TotalSize(queue[..i])
    && (g.shared <==> SomeMerged(queue, i)) && (g.shared ==> size <= MaxSize(queue[0].size))
  }

  lemma GatherFirst(queue: seq<Writer>)
    requires queue != [] && queue[0].batch.Some?
    ensures Gathered(queue, 1, queue[0].size, Group(queue[0].id, queue[0].batch.value, false))
  {
    OnlyFirst(queue);
  }

  lemma GatherStep(queue: seq<Writer>, i: nat, size: nat, g: Group)
    requires 1 <= i < |queue| && Gathered(queue, i, size, g) && !Stops(queue[0], queue[i], size)
    ensures var w := queue[i];
            if w.batch.Some? then Gathered(queue, i + 1, size + w.size, Group(w.id, g.updates + w.batch.value, true))
            else Gathered(queue, i + 1, size, Group(w.id, g.updates, g.shared))
  {
    hide Ops, TotalSize, SyncKept, SomeMerged;
    OneMore(queue, i);
    OneMoreKept(queue, i);
  }

  lemma GatherDone(queue: seq<Writer>, i: nat, size: nat, g: Group)
    requires Gathered(queue, i, size, g)
    ensures IsGroup(queue, i, g) && size == TotalSize(queue[..i])
    ensures (g.shared <==> SomeMerged(queue, i)) && (g.shared ==> size <= MaxSize(queue[0].size))
  {
  }

  class Queue {
    /** The last sequence number when the database was opened. */
    const recovered: nat
    var writers: seq<Writer>
    var tmpBatch: seq<WriteOp>
    var lastSequence: nat
    var applied: seq<Entry>
    var leading: Option<Group>
    ghost var arrived: seq<Writer>
    ghost var done: seq<Writer>
    ghost var leaders: seq<Writer>

    /** Writers complete once and in arrival order; what was applied is their
        batches in that order under consecutive sequence numbers; no sync writer had
        a leader without sync; the shared batch is empty between groups. */
    ghost predicate Valid()
      reads this
    {
      && arrived == done + writers && DistinctIds(writers)
      && |leaders| == |done| && (forall i :: 0 <= i < |done| && done[i].sync ==> leaders[i].sync)
      && applied == EntriesOf(Ops(done), recovered + 1) && lastSequence == recovered + |Ops(done)|
      && (leading.None? ==> tmpBatch == [])
      && (leading.Some? ==> exists n: nat :: IsGroup(writers, n, leading.value))
    }

    constructor (recovered: nat)
      ensures Valid() && writers == [] && arrived == [] && leading.None? && applied == []
      ensures this.recovered == recovered && lastSequence == recovered
    {
      this.recovered := recovered;
      writers, tmpBatch, lastSequence, applied, leading := [], [], recovered, [], None;
      arrived, done, leaders := [], [], [];
    }

    /** A thread joins the back of the queue, also while a leader is writing. */
    method Enqueue(w: Writer)
      requires Valid() && forall x :: x in writers ==> x.id != w.id
      modifies this`writers, this`arrived
      ensures Valid() && writers == old(writers) + [w] && arrived == old(arrived) + [w]
    {
      hide Ops, EntriesOf, IsGroup;
      ghost var before := writers;
      writers := writers + [w];
      arrived := arrived + [w];
      assert forall i :: 0 <= i < |before| ==> before[i] in before;
      if leading.Some? {
        ghost var n: nat :| IsGroup(before, n, leading.value);
        GroupStays(before, n, leading.value, w);
      }
    }

    /** The front writer takes the lead.  A flush request completes alone. */
    method Lead()
      requires Valid() && leading.None? && writers != []
      modifies this`leading, this`tmpBatch
      ensures Valid() && leading.Some? && tmpBatch == if leading.value.shared then leading.value.updates else []
      ensures exists n: nat :: IsGroup(writers, n, leading.value)
                  && if writers[0].batch.Some? then WholeGroup(writers, n, leading.value) else n == 1
    {
      var front := writers[0];
      if front.batch.None? {
        assert writers[..1] == [front] && [front][..0] == [] && Ops([front]) == [];
        assert IsGroup(writers, 1, Group(front.id, [], false));
        leading := Some(Group(front.id, [], false));
      } else {
        var g, n := BuildBatchGroup(writers);
        leading := Some(g);
        if g.shared {
          tmpBatch := g.updates;
        }
      }
    }

    /** The group is in the log and the memtable: its writers are popped up to the
        last one. */
    method Finish()
      requires Valid() && leading.Some?
      modifies this
      ensures Valid() && leading.None? && arrived == old(arrived)
      ensures applied == old(applied) + EntriesOf(old(leading).value.updates, old(lastSequence) + 1)
      ensures lastSequence == old(lastSequence) + |old(leading).value.updates|
      ensures exists n: nat :: IsGroup(old(writers), n, old(leading).value) && writers == old(writers)[n..]
                               && done == old(done) + old(writers)[..n]
    {
      hide Ops, EntriesOf;
      var g := leading.value;
      ghost var n: nat :| IsGroup(writers, n, g);
      ghost var queue, finished := writers, done;
      OpsAppend(done, queue[..n]);
      EntriesAppend(Ops(done), g.updates, recovered + 1);
      applied := applied + EntriesOf(g.updates, lastSequence + 1);
      lastSequence := lastSequence + |g.updates|;
      tmpBatch := [];
      leading := None;
      PopGroup(g.last, n);
      assert finished + queue[..n] + queue[n..] == finished + queue;
    }

    method PopGroup(last: nat, ghost n: nat)
      requires 1 <= n <= |writers| && writers[n - 1].id == last && DistinctIds(writers) && |leaders| == |done|
      requires SyncKept(writers[..n], writers[0]) && forall i :: 0 <= i < |done| && done[i].sync ==> leaders[i].sync
      modifies this`writers, this`done, this`leaders
      ensures writers == old(writers)[n..] && done == old(done) + old(writers)[..n]
      ensures DistinctIds(writers) && |leaders| == |done|
      ensures forall i :: 0 <= i < |done| && done[i].sync ==> leaders[i].sync
    {
      ghost var queue, finished, leader := writers, done, writers[0];
      ghost var k: nat := 0;
      var ready;
      while true
        invariant 0 <= k < n && writers == queue[k..] && done == finished + queue[..k]
        invariant |leaders| == |done| && forall i :: 0 <= i < |done| && done[i].sync ==> leaders[i].sync
        decreases n - k
      {
        ready := writers[0];
        writers := writers[1..];
        assert queue[..k + 1] == queue[..k] + [ready];
        assert ready == queue[..n][k];
        done, leaders := done + [ready], leaders + [leader];
        k := k + 1;
        if ready.id == last {
          break;
        }
      }
      assert k == n;
    }
  }

  lemma GroupStays(queue: seq<Writer>, n: nat, g: Group, w: Writer)
    requires IsGroup(queue, n, g)
    ensures IsGroup(queue + [w], n, g)
  {
    assert (queue + [w])[..n] == queue[..n];
  }

  /** Each completed writer's batch got its own range of sequence numbers, right
      after the ranges of the writers that arrived before it. */
  lemma ConsecutiveRanges(done: seq<Writer>, recovered: nat, i: nat)
    requires i < |done|
    ensures var before, mine := |Ops(done[..i])|, OpsOf(done[i]);
            && before + |mine| <= |Ops(done)|
            && EntriesOf(Ops(done), recovered + 1)[before..before + |mine|] == EntriesOf(mine, recovered + before + 1)
            && before + |mine| == |Ops(done[..i + 1])|
  {
    hide EntriesOf;
    var a, mine, b, first := done[..i], OpsOf(done[i]), done[i + 1..], recovered + 1;
    OneMore(done, i);
    assert done == done[..i + 1] + b;
    OpsAppend(done[..i + 1], b);
    EntriesAppend(Ops(a) + mine, Ops(b), first);
    EntriesAppend(Ops(a), mine, first);
    Middle(EntriesOf(Ops(a), first), EntriesOf(mine, first + |Ops(a)|), EntriesOf(Ops(b), first + |Ops(a) + mine|));
  }

  lemma Middle(x: seq<Entry>, y: seq<Entry>, z: seq<Entry>)
    ensures (x + y + z)[|x|..|x| + |y|] == y
  {
  }
}
