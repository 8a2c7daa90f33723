/** The database iterator over a whole tree: its children are the memtables, the
    level-0 tables and the sorted levels (DBImpl::NewInternalIterator,
    Version::AddIterators), and what it shows is the plain map. */
module IteratorReads {
  import opened Format
  import opened Version
  import opened Merge
  import opened Lsm
  import opened LsmLevels
  import opened LsmReads
  import opened DbIterator

  /** Over any sorted list of exactly the stored entries, the visible map at a
      promised sequence is the map that the writes up to it left. */
  lemma VisibleIsPlainMap(s: State, merged: seq<Entry>, at: nat)
    requires Inv(s) && s.floor <= at <= s.db.lastSequence
    requires Sorted(merged) && Elems(merged) == Stored(s.db)
    ensures Visible(merged, at) == Replay(s.hist[..at])
  {
    var m, r := Visible(merged, at), Replay(s.hist[..at]);
    forall u
      ensures Lookup(m, u) == Lookup(r, u)
    {
      HitIsNewest(merged, u, at);
      CoveredReads(s.hist, Stored(s.db), s.floor, u, at, Hit(merged, u, at));
      VisibleLookup(merged, at, u);
    }
    forall u
      ensures u in m <==> u in r
      ensures u in m ==> m[u] == r[u]
    {
      assert Lookup(m, u) == Lookup(r, u);
    }
  }

  lemma VisibleLookup(es: seq<Entry>, at: nat, u: UserKey)
    ensures Lookup(Visible(es, at), u) == AnswerOf(Hit(es, u, at))
  {
    var h := Hit(es, u, at);
    if h.Some? {
      assert h.value in es;
    }
  }

  // ----- the children

  function TableLists(files: seq<File>): (r: seq<seq<Entry>>)
    ensures |r| == |files| && forall i :: 0 <= i < |r| ==> r[i] == files[i].entries
  {
    if files == [] then [] else TableLists(files[..|files| - 1]) + [files[|files| - 1].entries]
  }

  /** One concatenating iterator per level above 0. */
  function LevelLists(levels: seq<seq<File>>, n: nat): (r: seq<seq<Entry>>)
    requires n <= |levels|
    ensures |r| == if n == 0 then 0 else n - 1
    ensures forall i :: 0 <= i < |r| ==> r[i] == Contents(levels[i + 1])
  {
    if n <= 1 then [] else LevelLists(levels, n - 1) + [Contents(levels[n - 1])]
  }

  function Children(db: Db): seq<seq<Entry>>
    requires |db.levels| == NUM_LEVELS
  {
    [db.mem, ImmEntries(db)] + TableLists(db.levels[0]) + LevelLists(db.levels, NUM_LEVELS)
  }

  /** The entries of child `i` come from one memtable, one table or one level. */
  ghost function Source(db: Db, i: nat): set<Entry>
    requires |db.levels| == NUM_LEVELS && i < |Children(db)|
  {
    if i == 0 then Elems(db.mem)
    else if i == 1 then Elems(ImmEntries(db))
    else if i < 2 + |db.levels[0]| then Elems(db.levels[0][i - 2].entries)
    else FileEntries(db.levels[i - 1 - |db.levels[0]|])
  }

  lemma ChildSource(s: State, i: nat)
    requires BaseInv(s) && i < |Children(s.db)|
    ensures Elems(Children(s.db)[i]) == Source(s.db, i)
  {
    var db := s.db;
    if i >= 2 + |db.levels[0]| {
      ContentsMembers(db.levels[i - 1 - |db.levels[0]|]);
    }
  }

  lemma {:induction false} DisjointContentsSorted(files: seq<File>)
    requires Disjoint(files) && forall f :: f in files ==> FileOk(f)
    ensures Sorted(Contents(files))
  {
    if files != [] {
      var init, f := files[..|files| - 1], files[|files| - 1];
      assert f in files;
      DisjointContentsSorted(init);
      ContentsMembers(init);
      forall x, y | x in Contents(init) && y in f.entries
        ensures Less(x.key, y.key)
      {
        var g :| g in init && x in g.entries;
        var j :| 0 <= j < |init| && init[j] == g;
        assert Before(files[j], files[|files| - 1]);
        assert g in files;
        InRange(g, x);
        InRange(f, y);
      }
      SortedJoin(Contents(init), f.entries);
    }
  }

  lemma SortedJoin(a: seq<Entry>, b: seq<Entry>)
    requires Sorted(a) && Sorted(b) && forall x, y :: x in a && y in b ==> Less(x.key, y.key)
    ensures Sorted(a + b)
  {
    forall i, j | 0 <= i < j < |a + b|
      ensures Less((a + b)[i].key, (a + b)[j].key)
    {
      assert i < |a| <= j ==> a[i] in a && b[j - |a|] in b;
    }
  }

  lemma ChildSorted(s: State, i: nat)
    requires BaseInv(s) && i < |Children(s.db)|
    ensures Sorted(Children(s.db)[i])
  {
    var levels := s.db.levels;
    if 2 <= i < 2 + |levels[0]| {
      assert At(levels, 0, levels[0][i - 2]);
    } else if i >= 2 + |levels[0]| {
      var l := i - 1 - |levels[0]|;
      assert forall f :: f in levels[l] ==> At(levels, l, f);
      DisjointContentsSorted(levels[l]);
    }
  }

  lemma TablePart(db: Db, i: nat, e: Entry) returns (l: nat, f: File)
    requires |db.levels| == NUM_LEVELS && 2 <= i < |Children(db)| && e in Source(db, i)
    ensures At(db.levels, l, f) && e in f.entries
    ensures if i < 2 + |db.levels[0]| then l == 0 && f == db.levels[0][i - 2] else l == i - 1 - |db.levels[0]|
  {
    if i < 2 + |db.levels[0]| {
      l, f := 0, db.levels[0][i - 2];
    } else {
      l := i - 1 - |db.levels[0]|;
      f :| f in db.levels[l] && e in f.entries;
    }
  }

  lemma SourcesApart(s: State, i: nat, j: nat, e: Entry)
    requires BaseInv(s) && i < j < |Children(s.db)| && e in Source(s.db, i)
    ensures e !in Source(s.db, j)
  {
    if e in Source(s.db, j) {
      var db := s.db;
      if j >= 2 {
        var m, g := TablePart(db, j, e);
        assert e in TableEntries(db.levels);
        if i >= 2 {
          var l, f := TablePart(db, i, e);
        }
      }
    }
  }

  lemma StoredBySource(s: State, e: Entry)
    requires BaseInv(s)
    ensures e in Stored(s.db) <==> exists i :: 0 <= i < |Children(s.db)| && e in Source(s.db, i)
  {
    var db := s.db;
    if e in TableEntries(db.levels) {
      var l, f :| 0 <= l < |db.levels| && f in db.levels[l] && e in f.entries;
      if l == 0 {
        var k :| 0 <= k < |db.levels[0]| && db.levels[0][k] == f;
        assert e in Source(db, k + 2);
      } else {
        assert e in Source(db, l + 1 + |db.levels[0]|);
      }
    }
    assert e in db.mem ==> e in Source(db, 0);
    assert e in ImmEntries(db) ==> e in Source(db, 1);
    if i :| 2 <= i < |Children(db)| && e in Source(db, i) {
      var l, f := TablePart(db, i, e);
      assert e in TableEntries(db.levels);
    }
  }

  lemma ChildrenDistinct(s: State, i: nat, j: nat)
    requires BaseInv(s) && i < j < |Children(s.db)|
    ensures DistinctKeys(Children(s.db)[i], Children(s.db)[j])
  {
    ChildSource(s, i);
    ChildSource(s, j);
    forall x, y | x in Children(s.db)[i] && y in Children(s.db)[j]
      ensures x.key != y.key
    {
      assert x in Source(s.db, i) && y in Source(s.db, j);
      StoredBySource(s, x);
      StoredBySource(s, y);
      assert FromHist(s.hist, x) && FromHist(s.hist, y);
      SourcesApart(s, i, j, x);
    }
  }

  lemma ChildrenHoldAll(s: State)
    requires BaseInv(s)
    ensures Mergeable(Children(s.db)) && Sorted(MergeAll(Children(s.db)))
    ensures Elems(MergeAll(Children(s.db))) == Stored(s.db)
  {
    var children := Children(s.db);
    forall i | 0 <= i < |children|
      ensures Sorted(children[i])
    {
      ChildSorted(s, i);
    }
    forall i, j | 0 <= i < j < |children|
      ensures DistinctKeys(children[i], children[j])
    {
      ChildrenDistinct(s, i, j);
    }
    MergeAllSorted(children);
    MergeAllMembers(children);
    forall e
      ensures e in MergeAll(children) <==> e in Stored(s.db)
    {
      StoredBySource(s, e);
      forall i | 0 <= i < |children|
        ensures e in children[i] <==> e in Source(s.db, i)
      {
        ChildSource(s, i);
        assert e in children[i] <==> e in Elems(children[i]);
      }
    }
  }

  /** The iterator over the database shows the plain map of its sequence number. */
  lemma IteratorIsPlainMap(s: State, at: nat)
    requires Inv(s) && s.floor <= at <= s.db.lastSequence
    ensures Sorted(MergeAll(Children(s.db)))
    ensures Visible(MergeAll(Children(s.db)), at) == Replay(s.hist[..at])
  {
    ChildrenHoldAll(s);
    VisibleIsPlainMap(s, MergeAll(Children(s.db)), at);
  }
}
