/** The two-level iterator (table/two_level_iterator.cc): a cursor over the
    concatenation of the blocks that an index lists, some of which may be empty. */
module TwoLevel {
  import opened Format
  import opened Bytes
  import opened Cursor
  import opened Block
  import opened BlockIter

  /** What an index value stands for. */
  type BlockFunction = seq<Byte> -> seq<KV>

  function Joined(index: seq<KV>, read: BlockFunction, n: nat): (r: seq<KV>)
    requires n <= |index|
  {
    if n == 0 then [] else Joined(index, read, n - 1) + read(index[n - 1].value)
  }

  /** Where block `i` starts in the concatenation. */
  function StartOf(index: seq<KV>, read: BlockFunction, i: nat): nat
    requires i <= |index|
  {
    |Joined(index, read, i)|
  }

  lemma StartAfter(index: seq<KV>, read: BlockFunction, i: nat)
    requires i < |index|
    ensures StartOf(index, read, i + 1) == StartOf(index, read, i) + |read(index[i].value)|
    ensures StartOf(index, read, 0) == 0
  {
  }

  lemma WholeLength(index: seq<KV>, read: BlockFunction)
    ensures StartOf(index, read, |index|) == |Joined(index, read, |index|)|
  {
  }

  lemma {:induction false} StartsRise(index: seq<KV>, read: BlockFunction, i: nat, n: nat)
    requires i <= n <= |index|
    ensures StartOf(index, read, i) <= StartOf(index, read, n)
    ensures Joined(index, read, n)[..StartOf(index, read, i)] == Joined(index, read, i)
  {
    if i < n {
      StartsRise(index, read, i, n - 1);
    }
  }

  lemma JoinedAt(index: seq<KV>, read: BlockFunction, i: nat, j: nat)
    requires i < |index| && j < |read(index[i].value)|
    ensures var all, p := Joined(index, read, |index|), StartOf(index, read, i) + j;
            p < |all| && all[p] == read(index[i].value)[j]
  {
    hide Joined;
    var all, next := Joined(index, read, |index|), Joined(index, read, i + 1);
    StartAfter(index, read, i);
    StartsRise(index, read, i + 1, |index|);
    var p := StartOf(index, read, i) + j;
    assert all[p] == all[..|next|][p] == next[p];
    assert next == Joined(index, read, i) + read(index[i].value) by {
      LastBlock(index, read, i);
    }
  }

  lemma LastBlock(index: seq<KV>, read: BlockFunction, i: nat)
    requires i < |index|
    ensures Joined(index, read, i + 1) == Joined(index, read, i) + read(index[i].value)
  {
  }

  /** Each position of the concatenation lies in one block. */
  lemma {:induction false} BlockOf(index: seq<KV>, read: BlockFunction, n: nat, p: nat) returns (i: nat)
    requires n <= |index| && p < |Joined(index, read, n)|
    ensures i < n && StartOf(index, read, i) <= p < StartOf(index, read, i + 1)
  {
    if p < |Joined(index, read, n - 1)| {
      i := BlockOf(index, read, n - 1, p);
    } else {
      i := n - 1;
    }
  }

  // ----- the order of the keys

  /** An index key is at or after the keys of its block, and before those of all
      later blocks. */
  ghost predicate Fenced(index: seq<KV>, read: BlockFunction, less: Less) {
    && Rising(index, less)
    && (forall i :: 0 <= i < |index| ==> Rising(read(index[i].value), less))
    && (forall i, kv :: 0 <= i < |index| && kv in read(index[i].value) ==> !less(index[i].key, kv.key))
    && (forall i, j, kv :: 0 <= i < j < |index| && kv in read(index[j].value) ==> less(index[i].key, kv.key))
  }

  function FirstAt(kvs: seq<KV>, less: Less, target: seq<Byte>): (i: nat)
    ensures i <= |kvs| && (forall j :: 0 <= j < i ==> less(kvs[j].key, target))
            && (i < |kvs| ==> !less(kvs[i].key, target))
  {
    if kvs == [] || !less(kvs[0].key, target) then 0 else 1 + FirstAt(kvs[1..], less, target)
  }

  lemma Between(less: Less, a: seq<Byte>, b: seq<Byte>, c: seq<Byte>)
    requires IsOrder(less) && less(a, c)
    ensures less(a, b) || less(b, c)
  {
  }

  lemma NotBefore(less: Less, a: seq<Byte>, b: seq<Byte>, c: seq<Byte>)
    requires IsOrder(less) && less(a, b) && !less(a, c)
    ensures !less(b, c)
  {
  }

  /** With fences the concatenation is sorted. */
  lemma JoinedRises(index: seq<KV>, read: BlockFunction, less: Less)
    requires IsOrder(less) && Fenced(index, read, less)
    ensures Rising(Joined(index, read, |index|), less)
  {
    hide Joined, IsOrder, Fenced;
    var all := Joined(index, read, |index|);
    forall p, q | 0 <= p < q < |all|
      ensures less(all[p].key, all[q].key)
    {
      var i := BlockOf(index, read, |index|, p);
      var j := BlockOf(index, read, |index|, q);
      InBlock(index, read, i, p);
      InBlock(index, read, j, q);
      if j < i {
        StartsRise(index, read, j + 1, i);
      }
      BlocksRise(index, read, less, i, p - StartOf(index, read, i), j, q - StartOf(index, read, j));
    }
  }

  lemma BlocksRise(index: seq<KV>, read: BlockFunction, less: Less, i: nat, x: nat, j: nat, y: nat)
    requires IsOrder(less) && Fenced(index, read, less) && i <= j < |index| && (i == j ==> x < y)
    requires x < |read(index[i].value)| && y < |read(index[j].value)|
    ensures less(read(index[i].value)[x].key, read(index[j].value)[y].key)
  {
    hide IsOrder;
    var a, b := read(index[i].value), read(index[j].value);
    assert a[x] in a && b[y] in b;
    if i < j {
      Between(less, index[i].key, a[x].key, b[y].key);
    } else {
      assert Rising(a, less);
    }
  }

  lemma InBlock(index: seq<KV>, read: BlockFunction, i: nat, p: nat)
    requires i < |index| && StartOf(index, read, i) <= p < StartOf(index, read, i + 1)
    ensures var b, j := read(index[i].value), p - StartOf(index, read, i);
            j < |b| && p < |Joined(index, read, |index|)| && Joined(index, read, |index|)[p] == b[j] && b[j] in b
  {
    hide Joined;
    StartAfter(index, read, i);
    JoinedAt(index, read, i, p - StartOf(index, read, i));
  }

  /** The two seeks together are one seek in the concatenation. */
  lemma SeekBoth(index: seq<KV>, read: BlockFunction, less: Less, target: seq<Byte>)
    requires IsOrder(less) && Fenced(index, read, less)
    ensures var all, i := Joined(index, read, |index|), FirstAt(index, less, target);
            IsFirstAt(all, less, target,
                      if i == |index| then |all| else StartOf(index, read, i) + FirstAt(read(index[i].value), less,
                              target))
  {
    hide Joined, IsOrder, Fenced, FirstAt;
    var all, i := Joined(index, read, |index|), FirstAt(index, less, target);
    var n := if i == |index| then |all| else StartOf(index, read, i) + FirstAt(read(index[i].value), less, target);
    if i < |index| {
      StartAfter(index, read, i);
      StartsRise(index, read, i + 1, |index|);
    }
    forall p | 0 <= p < |all|
      ensures less(all[p].key, target) <==> p < n
    {
      var b := BlockOf(index, read, |index|, p);
      InBlock(index, read, b, p);
      SeekOne(index, read, less, target, b, p - StartOf(index, read, b));
      if b < i && i < |index| {
        StartsRise(index, read, b + 1, i);
      } else if i < b {
        StartsRise(index, read, i + 1, b);
      }
    }
  }

  lemma SeekOne(index: seq<KV>, read: BlockFunction, less: Less, target: seq<Byte>, b: nat, j: nat)
    requires IsOrder(less) && Fenced(index, read, less) && b < |index| && j < |read(index[b].value)|
    ensures var i := FirstAt(index, less, target);
            less(read(index[b].value)[j].key, target) <==>
              b < i || (b == i && j < FirstAt(read(index[b].value), less, target))
  {
    hide IsOrder, FirstAt;
    var block, i := read(index[b].value), FirstAt(index, less, target);
    var kv := block[j];
    assert kv in block && !less(index[b].key, kv.key);
    if b < i {
      Between(less, index[b].key, kv.key, target);
    } else if b == i {
      FromNotLess(block, less, target, FirstAt(block, less, target));
    } else {
      NotBefore(less, index[i].key, kv.key, target);
    }
  }

  // ----- the iterator

  class TwoLevelIterator {
    const index: seq<KV>
    const read: BlockFunction
    var at: Option<nat>
    var data: Option<seq<KV>>
    var dataAt: Option<nat>
    var handle: seq<Byte>
    ghost var pos: Option<nat>

    ghost function All(): seq<KV> {
      Joined(index, read, |index|)
    }

    /** data_iter_ was made from data_block_handle_, which is the current index value
        unless the data iterator is NULL. */
    ghost predicate Loaded()
      reads this
    {
      && (at.Some? ==> at.value < |index|)
      && (data.Some? ==> data.value == read(handle) && at.Some? && handle == index[at.value].value)
      && (dataAt.Some? ==> data.Some? && dataAt.value < |data.value|)
    }

    ghost predicate Ok()
      reads this
    {
      && Loaded() && (data.Some? ==> dataAt.Some?)
      && pos == (if data.None? then None else Some(StartOf(index, read, at.value) + dataAt.value))
    }

    /** The place in the concatenation, when entries are looked for forward. */
    ghost function Ahead(): nat
      requires Loaded()
      reads this
    {
      if at.None? then |All()|
      else if dataAt.None? then StartOf(index, read, at.value + 1)
      else StartOf(index, read, at.value) + dataAt.value
    }

    /** One more than the place, when entries are looked for backward. */
    ghost function Behind(): nat
      requires Loaded()
      reads this
    {
      if at.None? then 0
      else if dataAt.None? then StartOf(index, read, at.value)
      else StartOf(index, read, at.value) + dataAt.value + 1
    }

    constructor (index: seq<KV>, read: BlockFunction)
      ensures Ok() && pos == None && this.index == index && this.read == read
    {
      this.index, this.read := index, read;
      at, data, dataAt, handle, pos := None, None, None, [], None;
    }

    /** key() and value(). */
    method Current() returns (kv: KV)
      requires Ok() && pos.Some?
      ensures pos.value < |All()| && kv == All()[pos.value]
    {
      JoinedAt(index, read, at.value, dataAt.value);
      kv := data.value[dataAt.value];
    }

    method InitDataBlock()
      requires at.Some? ==> at.value < |index|
      requires data.Some? ==> data.value == read(handle)
      requires dataAt.Some? ==> data.Some? && dataAt.value < |data.value|
      modifies this`data, this`dataAt, this`handle
      ensures Loaded() && (at.Some? <==> data.Some?)
    {
      if at.None? {
        data, dataAt := None, None;
      } else {
        var h := index[at.value].value;
        if data.None? || h != handle {
          data, dataAt, handle := Some(read(h)), None, h;
        }
      }
    }

    /** Forward to the entry `n` of the concatenation. */
    method SkipEmptyDataBlocksForward(ghost n: nat)
      requires Loaded() && (at.Some? <==> data.Some?)
      requires n == Ahead()
      modifies this
      ensures Ok() && pos == AtIndex(|All()|, n)
    {
      hide Joined, StartOf;
      while data.None? || dataAt.None?
        invariant Loaded() && (at.Some? <==> data.Some?)
        invariant n == Ahead()
        decreases if at.None? then 0 else |index| - at.value, if data.None? || dataAt.None? then 1 else 0
      {
        if at.None? {
          data, pos := None, None;
          return;
        }
        at := AtIndex(|index|, at.value + 1);
        InitDataBlock();
        if data.Some? {
          StartAfter(index, read, at.value);
          dataAt := AtIndex(|data.value|, 0);
        }
        WholeLength(index, read);
      }
      JoinedAt(index, read, at.value, dataAt.value);
      pos := Some(StartOf(index, read, at.value) + dataAt.value);
    }

    /** Backward to the entry before `n`. */
    method SkipEmptyDataBlocksBackward(ghost n: nat)
      requires Loaded() && (at.Some? <==> data.Some?)
      requires n == Behind()
      modifies this
      ensures Ok() && pos == BeforeIndex(n)
    {
      hide Joined, StartOf;
      while data.None? || dataAt.None?
        invariant Loaded() && (at.Some? <==> data.Some?)
        invariant n == Behind()
        decreases if at.None? then 0 else at.value + 1, if data.None? || dataAt.None? then 1 else 0
      {
        if at.None? {
          data, pos := None, None;
          return;
        }
        StartAfter(index, read, at.value);
        at := BeforeIndex(at.value);
        InitDataBlock();
        if data.Some? {
          StartAfter(index, read, at.value);
          dataAt := BeforeIndex(|data.value|);
        }
      }
      pos := Some(StartOf(index, read, at.value) + dataAt.value);
    }

    method Seek(less: Less, target: seq<Byte>)
      requires Ok() && IsOrder(less) && Fenced(index, read, less)
      modifies this
      ensures Ok() && exists n :: IsFirstAt(All(), less, target, n) && pos == AtIndex(|All()|, n)
    {
      hide Joined, StartOf, IsOrder, Fenced, FirstAt;
      at := AtIndex(|index|, FirstAt(index, less, target));
      InitDataBlock();
      if data.Some? {
        dataAt := AtIndex(|data.value|, FirstAt(data.value, less, target));
      }
      SeekBoth(index, read, less, target);
      ghost var n := if at.None? then |All()| else StartOf(index, read, at.value) + FirstAt(data.value, less, target);
      if at.Some? {
        StartAfter(index, read, at.value);
      }
      SkipEmptyDataBlocksForward(n);
    }

    method SeekToFirst()
      requires Ok()
      modifies this
      ensures Ok() && pos == AtIndex(|All()|, 0)
    {
      at := AtIndex(|index|, 0);
      InitDataBlock();
      if data.Some? {
        StartAfter(index, read, at.value);
        dataAt := AtIndex(|data.value|, 0);
      }
      SkipEmptyDataBlocksForward(0);
    }

    method SeekToLast()
      requires Ok()
      modifies this
      ensures Ok() && pos == BeforeIndex(|All()|)
    {
      at := BeforeIndex(|index|);
      InitDataBlock();
      if data.Some? {
        StartAfter(index, read, at.value);
        dataAt := BeforeIndex(|data.value|);
      }
      SkipEmptyDataBlocksBackward(|All()|);
    }

    method Next()
      requires Ok() && pos.Some?
      modifies this
      ensures Ok() && pos == AtIndex(|All()|, old(pos).value + 1)
    {
      ghost var n := pos.value + 1;
      StartAfter(index, read, at.value);
      dataAt := AtIndex(|data.value|, dataAt.value + 1);
      SkipEmptyDataBlocksForward(n);
    }

    method Prev()
      requires Ok() && pos.Some?
      modifies this
      ensures Ok() && pos == BeforeIndex(old(pos).value)
    {
      ghost var n := pos.value;
      dataAt := BeforeIndex(dataAt.value);
      SkipEmptyDataBlocksBackward(n);
    }
  }
}
