/** What a compaction may drop, on sets of entries: exactly when do reads at and above
    the smallest snapshot stay right (DBImpl::DoCompactionWork)? */
module LsmDrops {
  import opened Format
  import opened Lsm
  import opened LsmReads

  ghost predicate AllFromHist(hist: seq<Entry>, es: set<Entry>) {
    forall e :: e in es ==> FromHist(hist, e)
  }

  /** Some input hides `e` at the snapshot. */
  ghost predicate Hidden(ins: set<Entry>, e: Entry, snapshot: nat) {
    exists p :: p in ins && p.key.user == e.key.user && e.key.sequence < p.key.sequence <= snapshot
  }

  /** Rule (A): nothing kept is hidden at the snapshot by an input. */
  ghost predicate HiddenAreDropped(ins: set<Entry>, outs: set<Entry>, snapshot: nat) {
    forall x, p :: x in outs && p in ins && x.key.user == p.key.user && x.key.sequence < p.key.sequence ==>
      p.key.sequence > snapshot
  }

  /** What is dropped is hidden, or a deletion visible at the snapshot. */
  ghost predicate DropsByRule(ins: set<Entry>, outs: set<Entry>, snapshot: nat) {
    forall e :: e in ins && e !in outs ==>
      Hidden(ins, e, snapshot) || (e.key.kind.Deletion? && e.key.sequence <= snapshot)
  }

  /** If reads at the snapshot see `e`, then no value comes to light without it. */
  ghost predicate Expendable(others: set<Entry>, ins: set<Entry>, e: Entry, snapshot: nat) {
    IsNewest(others + ins, e.key.user, snapshot, e) ==> NoValueNewest(others, e.key.user, e.key.sequence)
  }

  ghost predicate JustDrop(others: set<Entry>, ins: set<Entry>, e: Entry, snapshot: nat) {
    || Hidden(ins, e, snapshot)
    || (e.key.kind.Deletion? && e.key.sequence <= snapshot && Expendable(others, ins, e, snapshot))
  }

  ghost predicate DropsAreJust(others: set<Entry>, ins: set<Entry>, outs: set<Entry>, snapshot: nat) {
    forall e :: e in ins && e !in outs ==> JustDrop(others, ins, e, snapshot)
  }

  /** Whatever finds the newest stored entry answers like the plain map. */
  ghost predicate StoreAnswers(hist: seq<Entry>, stored: set<Entry>, floor: nat) {
    forall u, at, r {:trigger Reads(stored, u, at, r)} ::
      floor <= at <= |hist| && Reads(stored, u, at, r) ==> AnswerOf(r) == Lookup(Replay(hist[..at]), u)
  }

  lemma CoveredAnswers(hist: seq<Entry>, stored: set<Entry>, floor: nat)
    requires HistOk(hist) && Covered(hist, stored, floor) && AllFromHist(hist, stored)
    ensures StoreAnswers(hist, stored, floor)
  {
    hide Reads, Covered;
    forall u, at, r | floor <= at <= |hist| && Reads(stored, u, at, r)
      ensures AnswerOf(r) == Lookup(Replay(hist[..at]), u)
    {
      CoveredReads(hist, stored, floor, u, at, r);
    }
  }

  /** Some entry is the newest, if any is visible. */
  lemma {:induction false} SomeNewest(es: set<Entry>, u: UserKey, s: nat, y: Entry) returns (z: Entry)
    requires y in es && y.key.user == u && y.key.sequence <= s
    ensures IsNewest(es, u, s, z)
    decreases s - y.key.sequence
  {
    z := y;
    if w :| w in es && w.key.user == u && y.key.sequence < w.key.sequence <= s {
      z := SomeNewest(es, u, s, w);
    }
  }

  /** What shows once the newest entry of a key is dropped. */
  lemma Uncovered(hist: seq<Entry>, others: set<Entry>, ins: set<Entry>, outs: set<Entry>, snapshot: nat, s: nat,
                  z: Entry)
    requires snapshot <= s && AllFromHist(hist, others + ins)
    requires outs <= ins && HiddenAreDropped(ins, outs, snapshot) && DropsAreJust(others, ins, outs, snapshot)
    requires IsNewest(others + ins, z.key.user, s, z) && z !in others + outs
    ensures z.key.kind.Deletion? && NoValueNewest(others + outs, z.key.user, s)
  {
    assert z in ins && JustDrop(others, ins, z, snapshot);
    assert IsNewest(others + ins, z.key.user, snapshot, z);
    forall y | IsNewest(others + outs, z.key.user, s, y)
      ensures y.key.kind.Deletion?
    {
      assert y in others + ins && FromHist(hist, y) && FromHist(hist, z);
      assert y !in outs;
      assert IsNewest(others, z.key.user, z.key.sequence, y);
    }
  }

  lemma DropsKeepShown(hist: seq<Entry>, others: set<Entry>, ins: set<Entry>, outs: set<Entry>,
                       snapshot: nat, u: UserKey, s: nat)
    requires snapshot <= s <= |hist| && AllFromHist(hist, others + ins) && HistOk(hist)
    requires outs <= ins && HiddenAreDropped(ins, outs, snapshot) && DropsAreJust(others, ins, outs, snapshot)
    requires Shown(hist, others + ins, u, s)
    ensures Shown(hist, others + outs, u, s)
  {
    hide DropsAreJust, HiddenAreDropped;
    var i := LastWrite(hist, u, s);
    if i >= 0 && hist[i] !in others + outs {
      var e := hist[i];
      if e in others + ins {
        LastIsNewest(hist, others + ins, u, s);
        Uncovered(hist, others, ins, outs, snapshot, s, e);
      } else {
        forall y | IsNewest(others + outs, u, s, y)
          ensures y.key.kind.Deletion?
        {
          var z := SomeNewest(others + ins, u, s, y);
          if z in others + outs {
            assert FromHist(hist, y) && FromHist(hist, z);
          } else {
            Uncovered(hist, others, ins, outs, snapshot, s, z);
          }
        }
      }
    }
  }

  /** A stored last write is the newest stored entry. */
  lemma LastIsNewest(hist: seq<Entry>, stored: set<Entry>, u: UserKey, s: nat)
    requires s <= |hist| && AllFromHist(hist, stored) && HistOk(hist)
    requires LastWrite(hist, u, s) >= 0 && hist[LastWrite(hist, u, s)] in stored
    ensures IsNewest(stored, u, s, hist[LastWrite(hist, u, s)])
  {
    forall x | x in stored && x.key.user == u && x.key.sequence <= s
      ensures x.key.sequence <= LastWrite(hist, u, s) + 1
    {
      assert FromHist(hist, x);
    }
  }

  lemma DropsKeepCovered(hist: seq<Entry>, others: set<Entry>, ins: set<Entry>, outs: set<Entry>, floor: nat,
                         snapshot: nat)
    requires Covered(hist, others + ins, floor) && AllFromHist(hist, others + ins) && HistOk(hist)
    requires outs <= ins && HiddenAreDropped(ins, outs, snapshot) && DropsAreJust(others, ins, outs, snapshot)
    ensures Covered(hist, others + outs, if snapshot > floor then snapshot else floor)
  {
    hide DropsAreJust, HiddenAreDropped, Shown;
    forall u, s | (if snapshot > floor then snapshot else floor) <= s <= |hist|
      ensures Shown(hist, others + outs, u, s)
    {
      DropsKeepShown(hist, others, ins, outs, snapshot, u, s);
    }
  }

  /** A drop that is not just makes a deleted value readable at the snapshot. */
  lemma UnjustDrop(hist: seq<Entry>, others: set<Entry>, ins: set<Entry>, outs: set<Entry>, snapshot: nat, e: Entry,
                   x: Entry)
    requires snapshot <= |hist| && AllFromHist(hist, others + ins) && HistOk(hist)
             && Shown(hist, others + ins, e.key.user, snapshot)
    requires outs <= ins && HiddenAreDropped(ins, outs, snapshot) && e in ins && e !in outs
    requires e.key.kind.Deletion? && IsNewest(others + ins, e.key.user, snapshot, e)
    requires IsNewest(others, e.key.user, e.key.sequence, x) && x.key.kind.Value?
    ensures Reads(others + outs, e.key.user, snapshot, Some(x))
            && Lookup(Replay(hist[..snapshot]), e.key.user) == NotFound
  {
    var u := e.key.user;
    assert FromHist(hist, e);
    var i := LastWrite(hist, u, snapshot);
    assert i >= e.key.sequence - 1;
    if hist[i] in others + ins {
      LastIsNewest(hist, others + ins, u, snapshot);
    }
    ReplayIsLastWrite(hist, u, snapshot);
    forall y | y in others + outs && y.key.user == u && y.key.sequence <= snapshot
      ensures y.key.sequence <= x.key.sequence
    {
      assert FromHist(hist, y);
    }
  }

  /** Exactly the just drops keep the answers at and above the snapshot. */
  lemma JustDropsIff(hist: seq<Entry>, others: set<Entry>, ins: set<Entry>, outs: set<Entry>, floor: nat, snapshot: nat)
    requires Covered(hist, others + ins, floor) && AllFromHist(hist, others + ins) && HistOk(hist)
    requires floor <= snapshot <= |hist| && outs <= ins
    requires HiddenAreDropped(ins, outs, snapshot) && DropsByRule(ins, outs, snapshot)
    ensures StoreAnswers(hist, others + outs, snapshot) <==> DropsAreJust(others, ins, outs, snapshot)
    ensures Covered(hist, others + outs, snapshot) <==> DropsAreJust(others, ins, outs, snapshot)
  {
    hide HiddenAreDropped, Shown, StoreAnswers, Covered;
    if DropsAreJust(others, ins, outs, snapshot) {
      DropsKeepCovered(hist, others, ins, outs, floor, snapshot);
      CoveredAnswers(hist, others + outs, snapshot);
    } else {
      var e :| e in ins && e !in outs && !JustDrop(others, ins, e, snapshot);
      var x :| IsNewest(others, e.key.user, e.key.sequence, x) && !x.key.kind.Deletion?;
      CoveredAt(hist, others + ins, floor, e.key.user, snapshot);
      UnjustDrop(hist, others, ins, outs, snapshot, e, x);
      WrongAnswer(hist, others + outs, snapshot, e.key.user, x);
      if Covered(hist, others + outs, snapshot) {
        CoveredAnswers(hist, others + outs, snapshot);
      }
    }
  }

  lemma CoveredAt(hist: seq<Entry>, stored: set<Entry>, floor: nat, u: UserKey, s: nat)
    requires Covered(hist, stored, floor) && floor <= s <= |hist|
    ensures Shown(hist, stored, u, s)
  {
  }

  lemma WrongAnswer(hist: seq<Entry>, stored: set<Entry>, s: nat, u: UserKey, x: Entry)
    requires s <= |hist| && Reads(stored, u, s, Some(x)) && x.key.kind.Value?
             && Lookup(Replay(hist[..s]), u) == NotFound
    ensures !StoreAnswers(hist, stored, s)
  {
  }
}
