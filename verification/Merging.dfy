/** Cursors over sorted lists, and the merging iterator as a cursor over the sorted
    union of its children (table/merger.cc). */
module Cursor {
  import opened Format

  /** An iterator is at an index, or not valid. */
  function AtIndex(n: nat, i: nat): Option<nat> {
    if i < n then Some(i) else None
  }

  function BeforeIndex(i: nat): Option<nat> {
    if i > 0 then Some(i - 1) else None
  }

  function First(es: seq<Entry>): Option<nat> {
    AtIndex(|es|, 0)
  }

  function Last(es: seq<Entry>): Option<nat> {
    BeforeIndex(|es|)
  }

  function SeekTo(es: seq<Entry>, k: InternalKey): Option<nat> {
    AtIndex(|es|, SeekIndex(es, k))
  }

  function After(es: seq<Entry>, i: nat): Option<nat> {
    AtIndex(|es|, i + 1)
  }

  /** In a sorted list SeekIndex is the only index that splits it at the key. */
  lemma SeekIndexIs(es: seq<Entry>, k: InternalKey, i: nat)
    requires Sorted(es) && i <= |es|
    requires forall j :: 0 <= j < i ==> Less(es[j].key, k)
    requires i < |es| ==> !Less(es[i].key, k)
    ensures SeekIndex(es, k) == i
  {
  }

  lemma SamePlace(es: seq<Entry>, i: nat, j: nat)
    requires Sorted(es) && i < |es| && j < |es| && !Less(es[i].key, es[j].key) && !Less(es[j].key, es[i].key)
    ensures i == j
  {
  }

  lemma SeekFindsEntry(es: seq<Entry>, i: nat)
    requires Sorted(es) && i < |es|
    ensures SeekIndex(es, es[i].key) == i
  {
    SeekIndexIs(es, es[i].key, i);
  }
}

module Merging {
  import opened Format
  import opened Merge
  import opened Cursor

  datatype Direction = Forward | Reverse

  /** How many entries of `child` come before position `m` of the merged list. */
  function Cut(child: seq<Entry>, merged: seq<Entry>, m: nat): (c: nat)
    requires m <= |merged|
    ensures c <= |child|
  {
    if m == |merged| then |child| else SeekIndex(child, merged[m].key)
  }

  ghost predicate Union(children: seq<seq<Entry>>, merged: seq<Entry>) {
    Mergeable(children) && Sorted(merged) && merged == MergeAll(children)
  }

  /** Child `c` is at the merged entry `m`. */
  ghost predicate Holds(children: seq<seq<Entry>>, merged: seq<Entry>, c: nat, m: nat) {
    && c < |children| && m < |merged|
    && var x := Cut(children[c], merged, m);
       x < |children[c]| && children[c][x] == merged[m]
  }

  lemma InMerged(children: seq<seq<Entry>>, merged: seq<Entry>, c: nat, i: nat) returns (m: nat)
    requires Union(children, merged) && c < |children| && i < |children[c]|
    ensures m < |merged| && merged[m] == children[c][i]
  {
    MergeAllMembers(children);
    assert children[c][i] in merged;
    m :| 0 <= m < |merged| && merged[m] == children[c][i];
  }

  lemma SomeChildHolds(children: seq<seq<Entry>>, merged: seq<Entry>, m: nat) returns (c: nat)
    requires Union(children, merged) && m < |merged|
    ensures Holds(children, merged, c, m)
  {
    MergeAllMembers(children);
    assert merged[m] in merged;
    c :| 0 <= c < |children| && merged[m] in children[c];
    var i :| 0 <= i < |children[c]| && children[c][i] == merged[m];
    SeekFindsEntry(children[c], i);
  }

  lemma OneChildHolds(children: seq<seq<Entry>>, merged: seq<Entry>, m: nat, c: nat, j: nat, i: nat)
    requires Union(children, merged) && Holds(children, merged, c, m)
    requires j < |children| && i < |children[j]| && children[j][i].key == merged[m].key
    ensures j == c
  {
    var x := Cut(children[c], merged, m);
    assert children[c][x] in children[c] && children[j][i] in children[j];
    assert j < c ==> DistinctKeys(children[j], children[c]);
    assert c < j ==> DistinctKeys(children[c], children[j]);
  }

  /** Behind the cut, and behind the entry itself, a child is past the merged entry. */
  lemma PastTheCut(children: seq<seq<Entry>>, merged: seq<Entry>, m: nat, c: nat, j: nat, i: nat)
    requires Union(children, merged) && Holds(children, merged, c, m) && j < |children|
    requires Cut(children[j], merged, m) + (if j == c then 1 else 0) <= i < |children[j]|
    ensures m + 1 < |merged| && !Less(children[j][i].key, merged[m + 1].key)
  {
    var child, x := children[j], Cut(children[j], merged, m);
    assert Sorted(child);
    assert x < i ==> Less(child[x].key, child[i].key);
    assert child[i].key != merged[m].key by {
      if child[i].key == merged[m].key {
        OneChildHolds(children, merged, m, c, j, i);
      }
    }
    var k := InMerged(children, merged, j, i);
    assert k > m;
    assert k > m + 1 ==> Less(merged[m + 1].key, merged[k].key);
  }

  /** One merged entry further, only the child that holds it moves. */
  lemma CutAfter(children: seq<seq<Entry>>, merged: seq<Entry>, m: nat, c: nat, j: nat)
    requires Union(children, merged) && Holds(children, merged, c, m) && j < |children|
    ensures Cut(children[j], merged, m + 1) == Cut(children[j], merged, m) + (if j == c then 1 else 0)
  {
    var child := children[j];
    var x := Cut(child, merged, m) + (if j == c then 1 else 0);
    assert Sorted(child);
    if x < |child| {
      PastTheCut(children, merged, m, c, j, x);
    }
    if m + 1 < |merged| {
      assert Less(merged[m].key, merged[m + 1].key);
      SeekIndexIs(child, merged[m + 1].key, x);
    }
  }

  lemma CutAtSeek(children: seq<seq<Entry>>, merged: seq<Entry>, k: InternalKey, j: nat)
    requires Union(children, merged) && j < |children|
    ensures Cut(children[j], merged, SeekIndex(merged, k)) == SeekIndex(children[j], k)
  {
    var child, m := children[j], SeekIndex(merged, k);
    var x := SeekIndex(child, k);
    forall i | x <= i < |child|
      ensures m < |merged| && !Less(child[i].key, merged[m].key)
    {
      assert x < i ==> Less(child[x].key, child[i].key);
      var n := InMerged(children, merged, j, i);
      assert m <= n;
      assert m < n ==> Less(merged[m].key, merged[n].key);
    }
    if m < |merged| {
      SeekIndexIs(child, merged[m].key, x);
    }
  }

  lemma CutAtStart(children: seq<seq<Entry>>, merged: seq<Entry>, j: nat)
    requires Union(children, merged) && j < |children|
    ensures Cut(children[j], merged, 0) == 0
  {
    if children[j] != [] {
      var n := InMerged(children, merged, j, 0);
      assert 0 < n ==> Less(merged[0].key, merged[n].key);
    }
  }

  // ----- the positions of all children

  ghost predicate AllAt(children: seq<seq<Entry>>, merged: seq<Entry>, at: seq<Option<nat>>, m: nat) {
    && |at| == |children| && m <= |merged|
    && forall j :: 0 <= j < |at| ==> at[j] == AtIndex(|children[j]|, Cut(children[j], merged, m))
  }

  ghost predicate AllBefore(children: seq<seq<Entry>>, merged: seq<Entry>, at: seq<Option<nat>>, m: nat) {
    && |at| == |children| && m <= |merged|
    && forall j :: 0 <= j < |at| ==> at[j] == BeforeIndex(Cut(children[j], merged, m))
  }

  /** Children before the entry `m`, except the one that holds it. */
  ghost predicate OthersBefore(children: seq<seq<Entry>>, merged: seq<Entry>, at: seq<Option<nat>>, c: nat, m: nat) {
    && |at| == |children| && Holds(children, merged, c, m)
    && at[c] == Some(Cut(children[c], merged, m))
    && forall j :: 0 <= j < |at| && j != c ==> at[j] == BeforeIndex(Cut(children[j], merged, m))
  }

  predicate InBounds(children: seq<seq<Entry>>, at: seq<Option<nat>>) {
    |at| == |children| && forall j :: 0 <= j < |at| && at[j].Some? ==> at[j].value < |children[j]|
  }

  predicate KeyNotAfter(children: seq<seq<Entry>>, at: seq<Option<nat>>, i: nat, j: nat)
    requires InBounds(children, at) && i < |at| && j < |at| && at[i].Some? && at[j].Some?
  {
    !Less(children[j][at[j].value].key, children[i][at[i].value].key)
  }

  /** Among children `lo..hi` the one at the least current key, if any is valid. */
  ghost predicate IsSmallest(children: seq<seq<Entry>>, at: seq<Option<nat>>, lo: nat, hi: nat, r: Option<nat>)
    requires InBounds(children, at) && hi <= |at|
  {
    match r
    case None => forall j :: lo <= j < hi ==> at[j].None?
    case Some(i) => lo <= i < hi && at[i].Some? && forall j :: lo <= j < hi && at[j].Some? ==>
                                                    KeyNotAfter(children, at, i, j)
  }

  ghost predicate IsLargest(children: seq<seq<Entry>>, at: seq<Option<nat>>, lo: nat, hi: nat, r: Option<nat>)
    requires InBounds(children, at) && hi <= |at|
  {
    match r
    case None => forall j :: lo <= j < hi ==> at[j].None?
    case Some(i) => lo <= i < hi && at[i].Some? && forall j :: lo <= j < hi && at[j].Some? ==>
                                                    KeyNotAfter(children, at, j, i)
  }

  method FindSmallest(children: seq<seq<Entry>>, at: seq<Option<nat>>) returns (smallest: Option<nat>)
    requires InBounds(children, at)
    ensures IsSmallest(children, at, 0, |at|, smallest)
  {
    smallest := None;
    for i := 0 to |at|
      invariant IsSmallest(children, at, 0, i, smallest)
    {
      if at[i].Some? {
        if smallest.None? {
          smallest := Some(i);
        } else if Less(children[i][at[i].value].key, children[smallest.value][at[smallest.value].value].key) {
          smallest := Some(i);
        }
      }
    }
  }

  /** FindLargest scans from the back. */
  method FindLargest(children: seq<seq<Entry>>, at: seq<Option<nat>>) returns (largest: Option<nat>)
    requires InBounds(children, at)
    ensures IsLargest(children, at, 0, |at|, largest)
  {
    largest := None;
    for i := |at| downto 0
      invariant IsLargest(children, at, i, |at|, largest)
    {
      if at[i].Some? {
        if largest.None? {
          largest := Some(i);
        } else if Less(children[largest.value][at[largest.value].value].key, children[i][at[i].value].key) {
          largest := Some(i);
        }
      }
    }
  }

  /** With all children at the cut, the least current key is the merged entry there. */
  lemma SmallestIsNext(children: seq<seq<Entry>>, merged: seq<Entry>, at: seq<Option<nat>>, m: nat,
                       smallest: Option<nat>)
    requires Union(children, merged) && AllAt(children, merged, at, m) && InBounds(children, at)
    requires IsSmallest(children, at, 0, |at|, smallest)
    ensures if m == |merged| then smallest == None else smallest.Some? && Holds(children, merged, smallest.value, m)
  {
    if m < |merged| {
      var c := SomeChildHolds(children, merged, m);
      assert at[c].Some?;
      var s := smallest.value;
      assert KeyNotAfter(children, at, s, c);
      var n := InMerged(children, merged, s, at[s].value);
      SamePlace(merged, n, m);
    }
  }

  lemma LargestIsPrev(children: seq<seq<Entry>>, merged: seq<Entry>, at: seq<Option<nat>>, m: nat, largest: Option<nat>)
    requires Union(children, merged) && AllBefore(children, merged, at, m) && InBounds(children, at)
    requires IsLargest(children, at, 0, |at|, largest)
    ensures if m == 0 then largest == None
            else largest.Some? && OthersBefore(children, merged, at, largest.value, m - 1)
  {
    if m == 0 {
      forall j | 0 <= j < |children|
        ensures at[j].None?
      {
        CutAtStart(children, merged, j);
      }
    } else {
      var c := SomeChildHolds(children, merged, m - 1);
      BeforeTheNext(children, merged, at, m, c);
      assert KeyNotAfter(children, at, c, largest.value);
      LargestHolds(children, merged, at, c, largest.value, m - 1);
    }
  }

  lemma LargestHolds(children: seq<seq<Entry>>, merged: seq<Entry>, at: seq<Option<nat>>, c: nat, s: nat, m: nat)
    requires OthersBefore(children, merged, at, c, m) && InBounds(children, at)
    requires s < |at| && at[s].Some? && KeyNotAfter(children, at, c, s)
    ensures s == c
  {
  }

  lemma BeforeTheNext(children: seq<seq<Entry>>, merged: seq<Entry>, at: seq<Option<nat>>, m: nat, c: nat)
    requires Union(children, merged) && AllBefore(children, merged, at, m) && 0 < m && Holds(children, merged, c, m - 1)
    ensures OthersBefore(children, merged, at, c, m - 1)
  {
    forall j | 0 <= j < |at|
      ensures at[j] == if j == c then Some(Cut(children[c], merged, m - 1)) else BeforeIndex(Cut(children[j], merged,
                  m - 1))
    {
      CutAfter(children, merged, m - 1, c, j);
    }
  }

  /** Past the key if the child stands on it. */
  function StepOver(child: seq<Entry>, r: Option<nat>, k: InternalKey): Option<nat> {
    if r.Some? && r.value < |child| && child[r.value].key == k then After(child, r.value) else r
  }

  /** Before the key: one back from the first entry at or after it, or the last
      entry if there is none. */
  function StepBack(child: seq<Entry>, r: Option<nat>): Option<nat> {
    if r.Some? then BeforeIndex(r.value) else Last(child)
  }

  lemma StepOverNothing(children: seq<seq<Entry>>, merged: seq<Entry>, c: nat, m: nat, j: nat)
    requires Union(children, merged) && Holds(children, merged, c, m) && j < |children| && j != c
    ensures StepOver(children[j], SeekTo(children[j], merged[m].key), merged[m].key)
            == AtIndex(|children[j]|, Cut(children[j], merged, m))
  {
    var x := SeekIndex(children[j], merged[m].key);
    if x < |children[j]| && children[j][x].key == merged[m].key {
      OneChildHolds(children, merged, m, c, j, x);
    }
  }

  /** Valid at the merged entry `m`: going forward every child is at the cut, going
      backward every other child is before it. */
  ghost predicate Standing(children: seq<seq<Entry>>, merged: seq<Entry>, at: seq<Option<nat>>, c: nat, d: Direction,
                           m: nat) {
    && Holds(children, merged, c, m)
    && if d.Forward? then AllAt(children, merged, at, m) else OthersBefore(children, merged, at, c, m)
  }

  lemma MovedOn(children: seq<seq<Entry>>, merged: seq<Entry>, at: seq<Option<nat>>, c: nat, m: nat)
    requires Union(children, merged) && AllAt(children, merged, at, m) && Holds(children, merged, c, m)
    ensures at[c].Some? && AllAt(children, merged, at[c := After(children[c], at[c].value)], m + 1)
  {
    forall j | 0 <= j < |at|
      ensures at[c := After(children[c], at[c].value)][j] == AtIndex(|children[j]|, Cut(children[j], merged, m + 1))
    {
      CutAfter(children, merged, m, c, j);
    }
  }

  lemma MovedBack(children: seq<seq<Entry>>, merged: seq<Entry>, at: seq<Option<nat>>, c: nat, m: nat)
    requires OthersBefore(children, merged, at, c, m)
    ensures at[c].Some? && AllBefore(children, merged, at[c := BeforeIndex(at[c].value)], m)
  {
  }

  lemma BeforeInBounds(children: seq<seq<Entry>>, merged: seq<Entry>, at: seq<Option<nat>>, m: nat)
    requires AllBefore(children, merged, at, m)
    ensures InBounds(children, at)
  {
  }

  class MergingIterator {
    const children: seq<seq<Entry>>
    const at: array<Option<nat>>
    var current: Option<nat>
    var direction: Direction
    ghost const merged: seq<Entry>
    ghost var pos: Option<nat>

    /** `pos` is the index in the merged list that the iterator stands for. */
    ghost predicate Ok()
      reads this, at
    {
      && Union(children, merged) && at.Length == |children| && InBounds(children, at[..])
      && (pos.Some? <==> current.Some?)
      && (pos.Some? ==> Standing(children, merged, at[..], current.value, direction, pos.value))
    }

    constructor (children: seq<seq<Entry>>)
      requires Mergeable(children)
      ensures Ok() && this.children == children && merged == MergeAll(children) && pos == None && fresh(at)
    {
      this.children := children;
      at := new Option<nat>[|children|](_ => None);
      current, direction := None, Forward;
      merged := MergeAll(children);
      pos := None;
      new;
      MergeAllSorted(children);
    }

    /** The entry that key() and value() read. */
    method Entry() returns (e: Format.Entry)
      requires Ok() && pos.Some?
      ensures e == merged[pos.value]
    {
      assert at[..][current.value] == at[current.value];
      e := children[current.value][at[current.value].value];
    }

    method SettleForward(ghost m: nat)
      requires Union(children, merged) && at.Length == |children| && AllAt(children, merged, at[..], m)
      modifies this`current, this`direction, this`pos
      ensures Ok() && pos == AtIndex(|merged|, m)
    {
      current := FindSmallest(children, at[..]);
      SmallestIsNext(children, merged, at[..], m, current);
      direction := Forward;
      pos := AtIndex(|merged|, m);
    }

    method SettleReverse(ghost m: nat)
      requires Union(children, merged) && at.Length == |children| && AllBefore(children, merged, at[..], m)
      modifies this`current, this`direction, this`pos
      ensures Ok() && pos == BeforeIndex(m)
    {
      BeforeInBounds(children, merged, at[..], m);
      current := FindLargest(children, at[..]);
      LargestIsPrev(children, merged, at[..], m, current);
      direction := Reverse;
      pos := BeforeIndex(m);
    }

    method SeekToFirst()
      requires Ok()
      modifies this`current, this`direction, this`pos, at
      ensures Ok() && pos == First(merged)
    {
      for i := 0 to at.Length
        invariant forall j :: 0 <= j < i ==> at[j] == AtIndex(|children[j]|, Cut(children[j], merged, 0))
      {
        CutAtStart(children, merged, i);
        at[i] := First(children[i]);
      }
      SettleForward(0);
    }

    method SeekToLast()
      requires Ok()
      modifies this`current, this`direction, this`pos, at
      ensures Ok() && pos == Last(merged)
    {
      for i := 0 to at.Length
        invariant forall j :: 0 <= j < i ==> at[j] == BeforeIndex(Cut(children[j], merged, |merged|))
      {
        at[i] := Last(children[i]);
      }
      SettleReverse(|merged|);
    }

    method Seek(k: InternalKey)
      requires Ok()
      modifies this`current, this`direction, this`pos, at
      ensures Ok() && pos == SeekTo(merged, k)
    {
      ghost var m := SeekIndex(merged, k);
      for i := 0 to at.Length
        invariant forall j :: 0 <= j < i ==> at[j] == AtIndex(|children[j]|, Cut(children[j], merged, m))
      {
        CutAtSeek(children, merged, k, i);
        at[i] := SeekTo(children[i], k);
      }
      SettleForward(m);
    }

    /** The re-seek of the other children when the direction changes. */
    method OthersForward()
      requires Ok() && pos.Some? && direction.Reverse?
      modifies at
      ensures AllAt(children, merged, at[..], pos.value)
    {
      var c, key := current.value, children[current.value][at[current.value].value].key;
      ghost var m := pos.value;
      for i := 0 to at.Length
        invariant at[c] == Some(Cut(children[c], merged, m))
        invariant forall j :: 0 <= j < i ==> at[j] == AtIndex(|children[j]|, Cut(children[j], merged, m))
      {
        if i != c {
          StepOverNothing(children, merged, c, m, i);
          at[i] := StepOver(children[i], SeekTo(children[i], key), key);
        }
      }
    }

    method OthersReverse()
      requires Ok() && pos.Some? && direction.Forward?
      modifies at
      ensures OthersBefore(children, merged, at[..], current.value, pos.value)
    {
      var c, key := current.value, children[current.value][at[current.value].value].key;
      ghost var m := pos.value;
      for i := 0 to at.Length
        invariant at[c] == Some(Cut(children[c], merged, m))
        invariant forall j :: 0 <= j < i && j != c ==> at[j] == BeforeIndex(Cut(children[j], merged, m))
      {
        if i != c {
          at[i] := StepBack(children[i], SeekTo(children[i], key));
        }
      }
    }

    method MoveOn(ghost m: nat)
      requires Union(children, merged) && at.Length == |children| && current.Some?
      requires AllAt(children, merged, at[..], m) && Holds(children, merged, current.value, m)
      modifies at
      ensures AllAt(children, merged, at[..], m + 1)
    {
      var c := current.value;
      ghost var before := at[..];
      MovedOn(children, merged, before, c, m);
      at[c] := After(children[c], at[c].value);
      assert at[..] == before[c := at[c]];
    }

    method Next()
      requires Ok() && pos.Some?
      modifies this`current, this`direction, this`pos, at
      ensures Ok() && pos == After(merged, old(pos).value)
    {
      hide Union, AllAt, Holds, InBounds;
      ghost var m := pos.value;
      if direction != Forward {
        OthersForward();
      }
      MoveOn(m);
      SettleForward(m + 1);
    }

    method Prev()
      requires Ok() && pos.Some?
      modifies this`current, this`direction, this`pos, at
      ensures Ok() && pos == BeforeIndex(old(pos).value)
    {
      if direction != Reverse {
        OthersReverse();
      }
      var c := current.value;
      ghost var m := pos.value;
      ghost var before := at[..];
      MovedBack(children, merged, before, c, m);
      at[c] := BeforeIndex(at[c].value);
      assert at[..] == before[c := at[c]];
      SettleReverse(m);
    }
  }
}
