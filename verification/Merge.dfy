/** The sorted union of sorted entry lists: what a merging iterator walks. */
module Merge {
  import opened Format

  function Merge2(a: seq<Entry>, b: seq<Entry>): (r: seq<Entry>)
    ensures multiset(r) == multiset(a) + multiset(b)
    decreases |a| + |b|
  {
    if a == [] then b
    else if b == [] then a
    else if Less(b[0].key, a[0].key) then
      assert b == [b[0]] + b[1..];
      [b[0]] + Merge2(a, b[1..])
    else
      assert a == [a[0]] + a[1..];
      [a[0]] + Merge2(a[1..], b)
  }

  ghost predicate DistinctKeys(a: seq<Entry>, b: seq<Entry>) {
    forall x, y :: x in a && y in b ==> x.key != y.key
  }

  lemma MergedMembers(a: seq<Entry>, b: seq<Entry>)
    ensures forall e :: e in Merge2(a, b) <==> e in a || e in b
  {
    forall e
      ensures e in Merge2(a, b) <==> e in a || e in b
    {
      assert e in Merge2(a, b) <==> e in multiset(Merge2(a, b));
    }
  }

  lemma {:induction false} Merge2Sorted(a: seq<Entry>, b: seq<Entry>)
    requires Sorted(a) && Sorted(b) && DistinctKeys(a, b)
    ensures Sorted(Merge2(a, b))
    decreases |a| + |b|
  {
    if a == [] || b == [] {
    } else if Less(b[0].key, a[0].key) {
      Merge2Sorted(a, b[1..]);
      MergedMembers(a, b[1..]);
      HeadFirst(b[0], Merge2(a, b[1..]));
    } else {
      assert a[0].key != b[0].key;
      Merge2Sorted(a[1..], b);
      MergedMembers(a[1..], b);
      HeadFirst(a[0], Merge2(a[1..], b));
    }
  }

  lemma HeadFirst(x: Entry, rest: seq<Entry>)
    requires Sorted(rest) && forall y :: y in rest ==> Less(x.key, y.key)
    ensures Sorted([x] + rest)
  {
  }

  function MergeAll(lists: seq<seq<Entry>>): (r: seq<Entry>) {
    if lists == [] then [] else Merge2(lists[0], MergeAll(lists[1..]))
  }

  /** Every list is sorted and no internal key occurs in two of them. */
  ghost predicate Mergeable(lists: seq<seq<Entry>>) {
    && (forall i {:trigger Sorted(lists[i])} :: 0 <= i < |lists| ==> Sorted(lists[i]))
    && (forall i, j {:trigger DistinctKeys(lists[i], lists[j])} ::
          0 <= i < j < |lists| ==> DistinctKeys(lists[i], lists[j]))
  }

  lemma {:induction false} MergeAllMembers(lists: seq<seq<Entry>>)
    ensures forall e :: e in MergeAll(lists) <==> exists i :: 0 <= i < |lists| && e in lists[i]
  {
    if lists != [] {
      MergeAllMembers(lists[1..]);
      MergedMembers(lists[0], MergeAll(lists[1..]));
      assert lists == [lists[0]] + lists[1..];
      forall e
        ensures e in MergeAll(lists) <==> exists i :: 0 <= i < |lists| && e in lists[i]
      {
        InSomeList(lists, e);
      }
    }
  }

  lemma InSomeList(lists: seq<seq<Entry>>, e: Entry)
    requires lists != []
    ensures (exists i :: 0 <= i < |lists| && e in lists[i]) <==>
            e in lists[0] || exists i :: 0 <= i < |lists[1..]| && e in lists[1..][i]
  {
    if i :| 0 <= i < |lists[1..]| && e in lists[1..][i] {
      assert e in lists[i + 1];
    }
    if i :| 0 < i < |lists| && e in lists[i] {
      assert e in lists[1..][i - 1];
    }
  }

  lemma {:induction false} MergeAllSorted(lists: seq<seq<Entry>>)
    requires Mergeable(lists)
    ensures Sorted(MergeAll(lists))
  {
    if lists != [] {
      var rest := lists[1..];
      forall i, j | 0 <= i < j < |rest|
        ensures DistinctKeys(rest[i], rest[j])
      {
        assert DistinctKeys(lists[i + 1], lists[j + 1]);
      }
      MergeAllSorted(rest);
      MergeAllMembers(rest);
      forall x, y | x in lists[0] && y in MergeAll(rest)
        ensures x.key != y.key
      {
        var i :| 0 <= i < |rest| && y in rest[i];
        assert DistinctKeys(lists[0], lists[i + 1]);
      }
      Merge2Sorted(lists[0], MergeAll(rest));
    }
  }
}
