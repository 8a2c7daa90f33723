/** VersionSet::Builder: applying edits to the file lists of a version
    (db/version_set.cc). */
module Builder {
  import opened Format
  import opened Version

  /** The file part of a VersionEdit: (level, number) and (level, file). */
  datatype VersionEdit = VersionEdit(deleted: set<(nat, nat)>, added: seq<(nat, File)>)

  /** One level of an edit. */
  datatype LevelEdit = LevelEdit(dels: set<nat>, adds: seq<File>)

  /** LevelState: numbers deleted, and files added in BySmallestKey order. */
  datatype LevelState = LevelState(deleted: set<nat>, added: seq<File>)

  const EMPTY := LevelState({}, [])

  function AddsAt(added: seq<(nat, File)>, l: nat): (r: seq<File>) {
    if added == [] then []
    else
      var rest := AddsAt(added[..|added| - 1], l);
      if added[|added| - 1].0 == l then rest + [added[|added| - 1].1] else rest
  }

  function NumbersAt(deleted: set<(nat, nat)>, l: nat): set<nat> {
    set p | p in deleted && p.0 == l :: p.1
  }

  function AtLevel(edit: VersionEdit, l: nat): LevelEdit {
    LevelEdit(NumbersAt(edit.deleted, l), AddsAt(edit.added, l))
  }

  /** std::set::insert under BySmallestKey: an equivalent element blocks it. */
  function InsertFile(s: seq<File>, f: File): (r: seq<File>)
    ensures forall g :: g in r ==> g in s || g == f
    ensures forall g :: g in s ==> g in r
  {
    if s == [] then [f]
    else if BySmallest(f, s[0]) then [f] + s
    else if BySmallest(s[0], f) then
      assert s == [s[0]] + s[1..];
      [s[0]] + InsertFile(s[1..], f)
    else s
  }

  lemma {:induction false} InsertKeepsOrder(s: seq<File>, f: File)
    requires InOrder(s)
    ensures InOrder(InsertFile(s, f))
    ensures (forall g :: g in s && g.number == f.number ==> g == f) ==> f in InsertFile(s, f)
  {
    if s != [] && !BySmallest(f, s[0]) && BySmallest(s[0], f) {
      InsertKeepsOrder(s[1..], f);
      HeadInOrder(s[0], InsertFile(s[1..], f));
    }
  }

  function AddAll(st: LevelState, adds: seq<File>): LevelState {
    if adds == [] then st
    else
      var f := adds[|adds| - 1];
      var r := AddAll(st, adds[..|adds| - 1]);
      LevelState(r.deleted - {f.number}, InsertFile(r.added, f))
  }

  /** Builder::Apply seen from one level. */
  function ApplyLevel(st: LevelState, e: LevelEdit): LevelState {
    AddAll(LevelState(st.deleted + e.dels, st.added), e.adds)
  }

  function Survivors(files: seq<File>, deleted: set<nat>): (r: seq<File>)
    ensures forall f :: f in r <==> f in files && f.number !in deleted
  {
    if files == [] then []
    else
      var rest := Survivors(files[..|files| - 1], deleted);
      var f := files[|files| - 1];
      if f.number in deleted then rest else rest + [f]
  }

  function MergeFiles(base: seq<File>, added: seq<File>): (r: seq<File>)
    ensures multiset(r) == multiset(base) + multiset(added)
    decreases |base| + |added|
  {
    if added == [] then base
    else if base != [] && !BySmallest(added[0], base[0]) then
      assert base == [base[0]] + base[1..];
      [base[0]] + MergeFiles(base[1..], added)
    else
      assert added == [added[0]] + added[1..];
      [added[0]] + MergeFiles(base, added[1..])
  }

  /** Builder::SaveTo for one level. */
  function SaveLevel(base: seq<File>, st: LevelState): seq<File> {
    Survivors(MergeFiles(base, st.added), st.deleted)
  }

  function Numbers(files: seq<File>): set<nat> {
    set f | f in files :: f.number
  }

  ghost predicate NoSharedNumber(a: seq<File>, b: seq<File>) {
    forall f, g :: f in a && g in b ==> f.number != g.number
  }

  ghost predicate DistinctNumbers(files: seq<File>) {
    forall i, j :: 0 <= i < j < |files| ==> files[i].number != files[j].number
  }

  /** A number names one file. */
  ghost predicate Named(a: seq<File>, b: seq<File>) {
    forall f, g :: f in a && g in b && f.number == g.number ==> f == g
  }

  lemma DistinctIsNamed(files: seq<File>)
    requires DistinctNumbers(files)
    ensures Named(files, files)
  {
  }

  // ----- order and contents of a saved level

  lemma MergeFilesMembers(base: seq<File>, added: seq<File>)
    ensures forall f :: f in MergeFiles(base, added) <==> f in base || f in added
  {
    forall f
      ensures f in MergeFiles(base, added) <==> f in base || f in added
    {
      assert f in MergeFiles(base, added) <==> f in multiset(MergeFiles(base, added));
    }
  }

  lemma HeadInOrder(f: File, rest: seq<File>)
    requires InOrder(rest) && forall g :: g in rest ==> BySmallest(f, g)
    ensures InOrder([f] + rest)
  {
  }

  lemma {:induction false} MergeFilesOrder(base: seq<File>, added: seq<File>)
    requires InOrder(base) && InOrder(added)
    requires NoSharedNumber(base, added)
    ensures InOrder(MergeFiles(base, added))
    decreases |base| + |added|
  {
    if added != [] {
      if base != [] && !BySmallest(added[0], base[0]) {
        assert BySmallest(base[0], added[0]);
        MergeFilesOrder(base[1..], added);
        MergeFilesMembers(base[1..], added);
        HeadInOrder(base[0], MergeFiles(base[1..], added));
      } else {
        MergeFilesOrder(base, added[1..]);
        MergeFilesMembers(base, added[1..]);
        HeadInOrder(added[0], MergeFiles(base, added[1..]));
      }
    }
  }

  lemma {:induction false} SurvivorsOrder(files: seq<File>, deleted: set<nat>)
    requires InOrder(files)
    ensures InOrder(Survivors(files, deleted))
  {
    if files != [] {
      SurvivorsOrder(files[..|files| - 1], deleted);
    }
  }

  lemma SaveLevelOrder(base: seq<File>, st: LevelState)
    requires InOrder(base) && InOrder(st.added) && NoSharedNumber(base, st.added)
    ensures InOrder(SaveLevel(base, st))
    ensures forall f :: f in SaveLevel(base, st) <==> (f in base || f in st.added) && f.number !in st.deleted
  {
    MergeFilesOrder(base, st.added);
    MergeFilesMembers(base, st.added);
    SurvivorsOrder(MergeFiles(base, st.added), st.deleted);
  }

  lemma {:induction false} AddAllContents(st: LevelState, adds: seq<File>)
    requires InOrder(st.added) && Named(st.added, adds) && Named(adds, adds)
    ensures var r := AddAll(st, adds);
            && InOrder(r.added)
            && (forall f :: f in r.added <==> f in st.added || f in adds)
            && r.deleted == st.deleted - Numbers(adds)
  {
    if adds != [] {
      var init, f := adds[..|adds| - 1], adds[|adds| - 1];
      assert adds == init + [f];
      assert Numbers(adds) == Numbers(init) + {f.number};
      AddAllContents(st, init);
      InsertKeepsOrder(AddAll(st, init).added, f);
    }
  }

  /** Two ordered lists with the same members are the same list. */
  lemma {:induction false} OrderDetermines(a: seq<File>, b: seq<File>)
    requires InOrder(a) && InOrder(b)
    requires forall f :: f in a <==> f in b
    ensures a == b
  {
    assert b != [] ==> b[0] in b;
    if a != [] {
      assert a[0] in b;
      assert b[0] in a;
      assert a[0] == b[0];
      assert a == [a[0]] + a[1..] && b == [b[0]] + b[1..];
      forall f
        ensures f in a[1..] <==> f in b[1..]
      {
        assert f in a[1..] ==> BySmallest(a[0], f);
        assert f in b[1..] ==> BySmallest(b[0], f);
        assert f in a <==> f == a[0] || f in a[1..];
        assert f in b <==> f == b[0] || f in b[1..];
      }
      OrderDetermines(a[1..], b[1..]);
    }
  }

  // ----- the builder itself

  /** No two surviving files overlap: what a level above 0 needs. */
  ghost predicate Separated(files: seq<File>, deleted: set<nat>) {
    forall f, g :: f in files && g in files && f != g && f.number !in deleted && g.number !in deleted
                   ==> MetaOk(f) && MetaOk(g) && (Before(f, g) || Before(g, f))
  }

  class VersionBuilder {
    const base: seq<seq<File>>
    var states: seq<LevelState>

    constructor (base: seq<seq<File>>)
      requires |base| == NUM_LEVELS
      ensures this.base == base
      ensures states == seq(NUM_LEVELS, _ => EMPTY)
    {
      this.base := base;
      states := seq(NUM_LEVELS, _ => EMPTY);
    }

    /** Builder::Apply: deletions first, then additions in the order listed. */
    method Apply(edit: VersionEdit)
      requires |states| == NUM_LEVELS
      requires forall p :: p in edit.deleted ==> p.0 < NUM_LEVELS
      requires forall i :: 0 <= i < |edit.added| ==> edit.added[i].0 < NUM_LEVELS
      modifies this
      ensures |states| == NUM_LEVELS
      ensures forall l :: 0 <= l < NUM_LEVELS ==> states[l] == ApplyLevel(old(states[l]), AtLevel(edit, l))
    {
      ApplyDeletions(edit.deleted);
      ApplyAdditions(edit.added);
    }

    method ApplyDeletions(deleted: set<(nat, nat)>)
      requires |states| == NUM_LEVELS && forall p :: p in deleted ==> p.0 < NUM_LEVELS
      modifies this
      ensures |states| == NUM_LEVELS
      ensures forall l :: 0 <= l < NUM_LEVELS ==>
                states[l] == LevelState(old(states[l]).deleted + NumbersAt(deleted, l), old(states[l]).added)
    {
      var before := states;
      var todo := deleted;
      while todo != {}
        invariant todo <= deleted && |states| == NUM_LEVELS
        invariant forall l :: 0 <= l < NUM_LEVELS ==>
                    states[l] == LevelState(before[l].deleted + NumbersAt(deleted - todo, l), before[l].added)
        decreases todo
      {
        var p :| p in todo;
        assert deleted - (todo - {p}) == deleted - todo + {p};
        forall l | 0 <= l < NUM_LEVELS
          ensures NumbersAt(deleted - todo + {p}, l) == NumbersAt(deleted - todo, l) + (if p.0 == l then {p.1} else {})
        {
        }
        todo := todo - {p};
        states := states[p.0 := states[p.0].(deleted := states[p.0].deleted + {p.1})];
      }
      assert deleted - {} == deleted;
    }

    method ApplyAdditions(added: seq<(nat, File)>)
      requires |states| == NUM_LEVELS && forall i :: 0 <= i < |added| ==> added[i].0 < NUM_LEVELS
      modifies this
      ensures |states| == NUM_LEVELS
      ensures forall l :: 0 <= l < NUM_LEVELS ==> states[l] == AddAll(old(states[l]), AddsAt(added, l))
    {
      for i := 0 to |added|
        invariant |states| == NUM_LEVELS
        invariant forall l :: 0 <= l < NUM_LEVELS ==> states[l] == AddAll(old(states[l]), AddsAt(added[..i], l))
      {
        var level, f := added[i].0, added[i].1;
        assert added[..i + 1][..i] == added[..i];
        ghost var at := AddsAt(added[..i], level);
        assert AddsAt(added[..i + 1], level) == at + [f];
        assert (at + [f])[..|at|] == at;
        var st := states[level];
        states := states[level := LevelState(st.deleted - {f.number}, InsertFile(st.added, f))];
      }
      assert added[..|added|] == added;
    }

    /** Builder::SaveTo: the list of one level of the new version.  The overlap
        assertion of MaybeAddFile holds at every file it meets. */
    method SaveLevelTo(level: nat) returns (files: seq<File>)
      requires level < NUM_LEVELS && |states| == NUM_LEVELS && |base| == NUM_LEVELS
      requires InOrder(base[level]) && InOrder(states[level].added)
      requires NoSharedNumber(base[level], states[level].added)
      requires level > 0 ==> Separated(base[level] + states[level].added, states[level].deleted)
      ensures files == SaveLevel(base[level], states[level])
      ensures level > 0 ==> Disjoint(files)
    {
      var st, all := states[level], base[level];
      ghost var merged := MergeFiles(all, st.added);
      StartSaving(level, all, st);
      files := [];
      var b: nat := 0;
      ghost var done: nat := 0;
      for a := 0 to |st.added|
        invariant Rest(merged, done, all, b, st.added, a)
        invariant Saving(level, files, merged, done, st.deleted)
      {
        files, b, done := AddBaseFiles(level, files, all, b, st.added, a, st.deleted, merged, done);
        RestStep(merged, done, all, b, st.added, a);
        files := MaybeAddFile(level, files, st.added[a], merged, done, st.deleted);
        done := done + 1;
      }
      files, b, done := AddBaseFiles(level, files, all, b, st.added, |st.added|, st.deleted, merged, done);
      assert merged[done..] == [];
      assert merged[..done] == merged;
    }
  }

  /** The inner loop of SaveTo: base files up to the upper bound of the next added
      file, or all that are left. */
  method AddBaseFiles(level: nat, files: seq<File>, all: seq<File>, from: nat, added: seq<File>, a: nat,
                      deleted: set<nat>,
                      ghost merged: seq<File>, ghost at: nat)
    returns (r: seq<File>, b: nat, ghost done: nat)
    requires Rest(merged, at, all, from, added, a) && Saving(level, files, merged, at, deleted)
    ensures Rest(merged, done, all, b, added, a) && Saving(level, r, merged, done, deleted)
    ensures if a < |added| then b == |all| || BySmallest(added[a], all[b]) else b == |all|
  {
    r, b, done := files, from, at;
    while b < |all| && (a == |added| || !BySmallest(added[a], all[b]))
      invariant Rest(merged, done, all, b, added, a) && Saving(level, r, merged, done, deleted)
    {
      RestStep(merged, done, all, b, added, a);
      r := MaybeAddFile(level, r, all[b], merged, done, deleted);
      b, done := b + 1, done + 1;
    }
  }

  /** The files of the merged list up to `done` have been looked at. */
  ghost predicate Saving(level: nat, files: seq<File>, merged: seq<File>, done: nat, deleted: set<nat>) {
    && done <= |merged| && InOrder(merged)
    && files == Survivors(merged[..done], deleted)
    && (level > 0 ==> Disjoint(files) && Separated(merged, deleted))
  }

  lemma SeparatedPart(files: seq<File>, all: seq<File>, deleted: set<nat>)
    requires Separated(all, deleted) && forall f :: f in files ==> f in all
    ensures Separated(files, deleted)
  {
  }

  lemma StartSaving(level: nat, base: seq<File>, st: LevelState)
    requires InOrder(base) && InOrder(st.added) && NoSharedNumber(base, st.added)
    requires level > 0 ==> Separated(base + st.added, st.deleted)
    ensures Saving(level, [], MergeFiles(base, st.added), 0, st.deleted)
    ensures Rest(MergeFiles(base, st.added), 0, base, 0, st.added, 0)
  {
    MergeFilesOrder(base, st.added);
    MergeFilesMembers(base, st.added);
    var merged := MergeFiles(base, st.added);
    if level > 0 {
      SeparatedPart(merged, base + st.added, st.deleted);
    }
    assert merged[..0] == [] && merged[0..] == merged;
    assert base[0..] == base && st.added[0..] == st.added;
  }

  /** What is left to merge after `done` files. */
  ghost predicate Rest(merged: seq<File>, done: nat, base: seq<File>, b: nat, added: seq<File>, a: nat) {
    && done <= |merged| && b <= |base| && a <= |added|
    && merged[done..] == MergeFiles(base[b..], added[a..])
  }

  lemma RestStep(merged: seq<File>, done: nat, base: seq<File>, b: nat, added: seq<File>, a: nat)
    requires Rest(merged, done, base, b, added, a) && (a < |added| || b < |base|)
    ensures done < |merged|
    ensures if b < |base| && (a == |added| || !BySmallest(added[a], base[b]))
            then merged[done] == base[b] && Rest(merged, done + 1, base, b + 1, added, a)
            else merged[done] == added[a] && Rest(merged, done + 1, base, b, added, a + 1)
  {
    assert b < |base| ==> base[b..] == [base[b]] + base[b + 1..];
    assert a < |added| ==> added[a..] == [added[a]] + added[a + 1..];
    var rest := MergeFiles(base[b..], added[a..]);
    assert multiset(rest) == multiset(base[b..]) + multiset(added[a..]);
    assert |rest| > 0;
    assert merged[done..][1..] == merged[done + 1..];
  }

  /** Builder::MaybeAddFile for the file at position `at` of the merged list. */
  method MaybeAddFile(level: nat, files: seq<File>, f: File, ghost merged: seq<File>, ghost at: nat, deleted: set<nat>)
    returns (r: seq<File>)
    requires Saving(level, files, merged, at, deleted)
    requires at < |merged| && merged[at] == f
    ensures Saving(level, r, merged, at + 1, deleted)
  {
    assert merged[..at + 1][..at] == merged[..at];
    if f.number in deleted {
      r := files;
    } else {
      if level > 0 {
        KeptBefore(level, files, merged, at, deleted);
        // The assertion in the source: the file does not overlap the last one kept.
        assert files != [] ==> Less(files[|files| - 1].largest, f.smallest);
      }
      r := files + [f];
    }
  }

  lemma KeptBefore(level: nat, files: seq<File>, merged: seq<File>, at: nat, deleted: set<nat>)
    requires Saving(level, files, merged, at, deleted) && level > 0
    requires at < |merged| && merged[at].number !in deleted
    ensures forall i :: 0 <= i < |files| ==> Before(files[i], merged[at])
  {
    forall i | 0 <= i < |files|
      ensures Before(files[i], merged[at])
    {
      assert files[i] in files;
      var j :| 0 <= j < at && merged[j] == files[i];
      assert BySmallest(merged[j], merged[at]);
    }
  }
}
