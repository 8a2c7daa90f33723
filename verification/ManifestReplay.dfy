/** Replaying a manifest (VersionSet::Recover): all edits through one builder, against
    a version per edit as LogAndApply built them. */
module ManifestReplay {
  import opened Format
  import opened Version
  import opened Builder

  function OneBuilder(edits: seq<LevelEdit>): LevelState {
    if edits == [] then EMPTY
    else ApplyLevel(OneBuilder(edits[..|edits| - 1]), edits[|edits| - 1])
  }

  function VersionPerEdit(base: seq<File>, edits: seq<LevelEdit>): seq<File> {
    if edits == [] then base
    else SaveLevel(VersionPerEdit(base, edits[..|edits| - 1]), ApplyLevel(EMPTY, edits[|edits| - 1]))
  }

  /** The files that the base or an edit puts at the level. */
  ghost function FilesOf(base: seq<File>, edits: seq<LevelEdit>): set<File> {
    if edits == [] then FileSet(base) else FilesOf(base, edits[..|edits| - 1]) + FileSet(edits[|edits| - 1].adds)
  }

  ghost function FileSet(files: seq<File>): set<File> {
    set f | f in files
  }

  /** A file number stands for one file. */
  ghost predicate OneNameEach(files: set<File>) {
    forall f, g :: f in files && g in files && f.number == g.number ==> f == g
  }

  /** No edit adds a number that the base holds, or that the version it applies to
      holds. */
  ghost predicate AddsNew(base: seq<File>, edits: seq<LevelEdit>) {
    edits == [] ||
    (var init, last := edits[..|edits| - 1], edits[|edits| - 1];
     && AddsNew(base, init)
     && Numbers(last.adds) !! Numbers(base) && Numbers(last.adds) !! Numbers(VersionPerEdit(base, init)))
  }

  /** The builder's state describes the version. */
  ghost predicate Describes(base: seq<File>, st: LevelState, v: seq<File>, files: set<File>) {
    && InOrder(st.added) && InOrder(v) && NoSharedNumber(base, st.added)
    && (forall f :: f in base || f in st.added ==> f in files)
    && (forall f :: f in v <==> (f in base || f in st.added) && f.number !in st.deleted)
  }

  lemma ApplyAdds(st: LevelState, e: LevelEdit, files: set<File>)
    requires InOrder(st.added) && OneNameEach(files)
    requires (forall f :: f in st.added ==> f in files) && (forall f :: f in e.adds ==> f in files)
    ensures var r := ApplyLevel(st, e);
            && InOrder(r.added)
            && (forall f :: f in r.added <==> f in st.added || f in e.adds)
            && r.deleted == st.deleted + e.dels - Numbers(e.adds)
  {
    AddAllContents(LevelState(st.deleted + e.dels, st.added), e.adds);
  }

  lemma DescribesNext(base: seq<File>, st: LevelState, v: seq<File>, files: set<File>, e: LevelEdit)
    requires Describes(base, st, v, files) && OneNameEach(files) && forall f :: f in e.adds ==> f in files
    requires Numbers(e.adds) !! Numbers(base) && Numbers(e.adds) !! Numbers(v)
    ensures Describes(base, ApplyLevel(st, e), SaveLevel(v, ApplyLevel(EMPTY, e)), files)
  {
    hide ApplyLevel, SaveLevel, OneNameEach, InOrder;
    var st', one := ApplyLevel(st, e), ApplyLevel(EMPTY, e);
    ApplyAdds(st, e, files);
    ApplyAdds(EMPTY, e, files);
    AddsApart(base, v, e);
    SaveLevelOrder(v, one);
    forall f | f in files
      ensures (f in v || f in e.adds) && f.number !in one.deleted <==>
              (f in base || f in st'.added) && f.number !in st'.deleted
    {
      NotReadded(files, e, f);
    }
  }

  lemma AddsApart(base: seq<File>, v: seq<File>, e: LevelEdit)
    requires Numbers(e.adds) !! Numbers(base) && Numbers(e.adds) !! Numbers(v)
    ensures NoSharedNumber(base, e.adds) && NoSharedNumber(v, e.adds)
    ensures forall f :: f in base || f in v ==> f.number !in Numbers(e.adds)
  {
    assert forall f :: f in e.adds ==> f.number in Numbers(e.adds);
    assert forall f :: f in base ==> f.number in Numbers(base);
    assert forall f :: f in v ==> f.number in Numbers(v);
  }

  lemma NotReadded(files: set<File>, e: LevelEdit, f: File)
    requires OneNameEach(files) && f in files && forall g :: g in e.adds ==> g in files
    ensures f.number in Numbers(e.adds) <==> f in e.adds
  {
  }

  lemma {:induction false} ReplayState(base: seq<File>, edits: seq<LevelEdit>, files: set<File>)
    requires InOrder(base) && AddsNew(base, edits) && OneNameEach(files) && FilesOf(base, edits) <= files
    ensures Describes(base, OneBuilder(edits), VersionPerEdit(base, edits), files)
    decreases |edits|
  {
    if edits == [] {
      assert forall f :: f in base ==> f in FilesOf(base, []);
    } else {
      var init, last := edits[..|edits| - 1], edits[|edits| - 1];
      assert forall f :: f in last.adds ==> f in FilesOf(base, edits);
      ReplayState(base, init, files);
      DescribesNext(base, OneBuilder(init), VersionPerEdit(base, init), files, last);
    }
  }

  /** Manifest replay: one builder over all edits gives the files that a version per
      edit would have given.  A number may leave a level and come back. */
  lemma ReplayAgrees(base: seq<File>, edits: seq<LevelEdit>)
    requires InOrder(base) && OneNameEach(FilesOf(base, edits)) && AddsNew(base, edits)
    ensures SaveLevel(base, OneBuilder(edits)) == VersionPerEdit(base, edits)
  {
    hide SaveLevel;
    ReplayState(base, edits, FilesOf(base, edits));
    SaveLevelOrder(base, OneBuilder(edits));
    OrderDetermines(SaveLevel(base, OneBuilder(edits)), VersionPerEdit(base, edits));
  }

  // ----- recovery starts from the empty version, and there the condition is exact

  ghost predicate AgreesUpTo(edits: seq<LevelEdit>, n: nat)
    requires n <= |edits|
  {
    forall k :: 0 <= k <= n ==> SaveLevel([], OneBuilder(edits[..k])) == VersionPerEdit([], edits[..k])
  }

  lemma {:induction false} SurvivorsCount(files: seq<File>, deleted: set<nat>, f: File)
    requires f.number !in deleted
    ensures multiset(Survivors(files, deleted))[f] == multiset(files)[f]
  {
    if files != [] {
      var init, last := files[..|files| - 1], files[|files| - 1];
      assert files == init + [last];
      SurvivorsCount(init, deleted, f);
    }
  }

  lemma {:induction false} InOrderOnce(files: seq<File>, f: File)
    requires InOrder(files)
    ensures multiset(files)[f] <= 1
  {
    if files != [] {
      var init, last := files[..|files| - 1], files[|files| - 1];
      assert files == init + [last];
      InOrderOnce(init, f);
      if last == f {
        forall i | 0 <= i < |init|
          ensures init[i] != f
        {
          assert BySmallest(files[i], files[|files| - 1]);
        }
        assert f !in init;
      }
    }
  }

  /** A file that is added to a version that holds it is listed twice. */
  lemma ListedTwice(v: seq<File>, st: LevelState, f: File)
    requires f in v && f in st.added && f.number !in st.deleted
    ensures multiset(SaveLevel(v, st))[f] >= 2
  {
    SurvivorsCount(MergeFiles(v, st.added), st.deleted, f);
    assert f in multiset(v) && f in multiset(st.added);
  }

  lemma BuilderInOrder(edits: seq<LevelEdit>, files: set<File>)
    requires edits != [] && OneNameEach(files) && FilesOf([], edits) <= files
    requires var init := edits[..|edits| - 1]; Describes([], OneBuilder(init), VersionPerEdit([], init), files)
    ensures InOrder(SaveLevel([], OneBuilder(edits)))
  {
    var init, last := edits[..|edits| - 1], edits[|edits| - 1];
    assert forall f :: f in last.adds ==> f in FilesOf([], edits);
    ApplyAdds(OneBuilder(init), last, files);
    SaveLevelOrder([], OneBuilder(edits));
  }

  /** Adding a number that the version holds makes the two lists differ. */
  lemma HeldNumber(edits: seq<LevelEdit>)
    requires edits != [] && OneNameEach(FilesOf([], edits)) && AddsNew([], edits[..|edits| - 1])
    requires !(Numbers(edits[|edits| - 1].adds) !! Numbers(VersionPerEdit([], edits[..|edits| - 1])))
    ensures SaveLevel([], OneBuilder(edits)) != VersionPerEdit([], edits)
  {
    hide SaveLevel, ApplyLevel;
    var init, last, files := edits[..|edits| - 1], edits[|edits| - 1], FilesOf([], edits);
    var v, one := VersionPerEdit([], init), ApplyLevel(EMPTY, last);
    ReplayState([], init, files);
    BuilderInOrder(edits, files);
    assert forall f :: f in last.adds ==> f in files;
    ApplyAdds(EMPTY, last, files);
    var n :| n in Numbers(last.adds) && n in Numbers(v);
    var f :| f in v && f.number == n;
    var g :| g in last.adds && g.number == n;
    assert f == g;
    ListedTwice(v, one, f);
    InOrderOnce(SaveLevel([], OneBuilder(edits)), f);
  }

  /** On the empty version, replay agrees at every prefix if and only if no edit adds a
      number that the version it applies to holds. */
  lemma {:induction false} ReplayIff(edits: seq<LevelEdit>)
    requires OneNameEach(FilesOf([], edits))
    ensures AgreesUpTo(edits, |edits|) <==> AddsNew([], edits)
    decreases |edits|
  {
    hide SaveLevel, ApplyLevel;
    assert edits[..|edits|] == edits;
    if edits == [] {
      ReplayAgrees([], []);
    } else {
      var init := edits[..|edits| - 1];
      assert FilesOf([], init) <= FilesOf([], edits);
      ReplayIff(init);
      assert forall k :: 0 <= k <= |init| ==> init[..k] == edits[..k];
      assert AgreesUpTo(init, |init|) <==> AgreesUpTo(edits, |init|);
      assert AgreesUpTo(edits, |edits|) <==>
             AgreesUpTo(edits, |init|) && SaveLevel([], OneBuilder(edits)) == VersionPerEdit([], edits);
      if AddsNew([], edits) {
        ReplayAgrees([], edits);
      } else if AddsNew([], init) {
        HeldNumber(edits);
      }
    }
  }

  /** Adding a file twice: the single builder lists it once, a version per edit twice. */
  lemma ReplayCanDiffer(f: File)
    ensures var edits := [LevelEdit({}, [f]), LevelEdit({}, [f])];
            !AddsNew([], edits) && !AgreesUpTo(edits, 2)
  {
    var e := LevelEdit({}, [f]);
    var edits := [e, e];
    assert edits[..1] == [e] && [e][..0] == [];
    assert FilesOf([], []) == {};
    assert FilesOf([], [e]) == {f};
    assert FilesOf([], edits) == {f};
    assert Numbers([]) == {} && VersionPerEdit([], []) == [];
    ReplayState([], [e], {f});
    ApplyAdds(EMPTY, e, {f});
    assert OneBuilder([e]) == ApplyLevel(EMPTY, e);
    assert f in VersionPerEdit([], [e]);
    assert f.number in Numbers([f]);
    ReplayIff(edits);
  }

  /** A number that leaves the level and comes back is replayed right. */
  lemma ReturningNumber(f: File)
    ensures var edits := [LevelEdit({}, [f]), LevelEdit({f.number}, []), LevelEdit({}, [f])];
            OneNameEach(FilesOf([], edits)) && AddsNew([], edits)
                && SaveLevel([], OneBuilder(edits)) == VersionPerEdit([], edits)
  {
    var a, b := LevelEdit({}, [f]), LevelEdit({f.number}, []);
    var edits := [a, b, a];
    assert edits[..2] == [a, b] && [a, b][..1] == [a] && [a][..0] == [];
    assert FilesOf([], []) == {} && FilesOf([], [a]) == {f} && FilesOf([], [a, b]) == {f} && FilesOf([], edits) == {f};
    assert VersionPerEdit([], []) == [] && Numbers([]) == {};
    assert AddsNew([], [a]) && AddsNew([], [a, b]);
    ReplayState([], [a], {f});
    ReplayState([], [a, b], {f});
    assert OneBuilder([a, b]) == ApplyLevel(OneBuilder([a]), b);
    assert f.number in OneBuilder([a, b]).deleted;
    assert Numbers(VersionPerEdit([], [a, b])) == {};
    ReplayAgrees([], edits);
  }
}
