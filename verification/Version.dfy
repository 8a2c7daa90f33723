/** File metadata, the files of one level, and the searches over them
    (db/version_set.cc, first half). */
module Version {
  import opened Format

  const MAX_MEM_COMPACT_LEVEL := 2

  /** FileMetaData together with the entries of the table it describes. */
  datatype File = File(number: nat, size: nat, smallest: InternalKey, largest: InternalKey, entries: seq<Entry>)

  /** What the metadata alone promises. */
  predicate MetaOk(f: File) {
    && !Less(f.largest, f.smallest)
    && f.smallest.sequence <= MAX_SEQUENCE
    && f.largest.sequence <= MAX_SEQUENCE
  }

  ghost predicate FileOk(f: File) {
    && |f.entries| > 0
    && Sorted(f.entries)
    && f.smallest == f.entries[0].key
    && f.largest == f.entries[|f.entries| - 1].key
    && MetaOk(f)
  }

  lemma InRange(f: File, e: Entry)
    requires FileOk(f) && e in f.entries
    ensures !Less(e.key, f.smallest) && !Less(f.largest, e.key)
    ensures f.smallest.user <= e.key.user <= f.largest.user
  {
    var i :| 0 <= i < |f.entries| && f.entries[i] == e;
    assert i > 0 ==> Less(f.entries[0].key, f.entries[i].key);
    assert i < |f.entries| - 1 ==> Less(f.entries[i].key, f.entries[|f.entries| - 1].key);
  }

  predicate Before(f: File, g: File) {
    Less(f.largest, g.smallest)
  }

  predicate UserBefore(f: File, g: File) {
    f.largest.user < g.smallest.user
  }

  /** The order of VersionSet::Builder::BySmallestKey. */
  predicate BySmallest(f: File, g: File) {
    Less(f.smallest, g.smallest) || (f.smallest == g.smallest && f.number < g.number)
  }

  ghost predicate InOrder(files: seq<File>) {
    forall i, j :: 0 <= i < j < |files| ==> BySmallest(files[i], files[j])
  }

  /** A level above 0: sorted and pairwise disjoint by internal key. */
  ghost predicate Disjoint(files: seq<File>) {
    forall i, j :: 0 <= i < j < |files| ==> Before(files[i], files[j])
  }

  /** The stronger form: no user key lies in two files. */
  ghost predicate UserDisjoint(files: seq<File>) {
    forall i, j :: 0 <= i < j < |files| ==> UserBefore(files[i], files[j])
  }

  ghost predicate AllMeta(files: seq<File>) {
    forall f :: f in files ==> MetaOk(f)
  }

  // ----- lookups in one level

  /** First file whose largest key is at or after `k`, by linear scan. */
  function FirstNotBefore(files: seq<File>, k: InternalKey): (r: nat)
    ensures r <= |files|
    ensures forall i :: 0 <= i < r ==> Less(files[i].largest, k)
    ensures r < |files| ==> !Less(files[r].largest, k)
  {
    if files == [] || !Less(files[0].largest, k) then 0 else 1 + FirstNotBefore(files[1..], k)
  }

  /** FindFile: the binary search agrees with the linear scan. */
  method FindFile(files: seq<File>, k: InternalKey) returns (r: nat)
    requires AllMeta(files) && Disjoint(files)
    ensures r == FirstNotBefore(files, k)
  {
    var left, right := 0, |files|;
    while left < right
      invariant 0 <= left <= right <= |files|
      invariant forall i :: 0 <= i < left ==> Less(files[i].largest, k)
      invariant right < |files| ==> !Less(files[right].largest, k)
    {
      var mid := (left + right) / 2;
      if Less(files[mid].largest, k) {
        forall i | 0 <= i < mid
          ensures Less(files[i].largest, k)
        {
          assert Before(files[i], files[mid]) && MetaOk(files[mid]);
        }
        left := mid + 1;
      } else {
        right := mid;
      }
    }
    r := right;
  }

  /** NULL bounds reach past every key. */
  predicate Overlaps(f: File, lo: Option<UserKey>, hi: Option<UserKey>) {
    && !(lo.Some? && f.largest.user < lo.value)
    && !(hi.Some? && f.smallest.user > hi.value)
  }

  /** Files and closed ranges meet if and only if some user key is in both. */
  lemma OverlapsIff(f: File, lo: Option<UserKey>, hi: Option<UserKey>)
    requires f.smallest.user <= f.largest.user && (lo.Some? && hi.Some? ==> lo.value <= hi.value)
    ensures Overlaps(f, lo, hi) <==>
            exists u :: f.smallest.user <= u <= f.largest.user && AtOrBelow(lo, Some(u)) && AtOrAbove(hi, Some(u))
  {
    if Overlaps(f, lo, hi) {
      var u := if lo.Some? && lo.value > f.smallest.user then lo.value else f.smallest.user;
      assert AtOrBelow(lo, Some(u)) && AtOrAbove(hi, Some(u));
    }
  }

  predicate AfterFile(key: Option<UserKey>, f: File) {
    key.Some? && key.value > f.largest.user
  }

  predicate BeforeFile(key: Option<UserKey>, f: File) {
    key.Some? && key.value < f.smallest.user
  }

  /** SomeFileOverlapsRange: both the scan and the binary search answer whether
      any file meets the closed user-key range. */
  method SomeFileOverlapsRange(disjoint: bool, files: seq<File>, lo: Option<UserKey>, hi: Option<UserKey>)
    returns (r: bool)
    requires AllMeta(files) && (disjoint ==> Disjoint(files))
    ensures r <==> exists f :: f in files && Overlaps(f, lo, hi)
  {
    if !disjoint {
      for i := 0 to |files|
        invariant forall j :: 0 <= j < i ==> !Overlaps(files[j], lo, hi)
      {
        if !AfterFile(lo, files[i]) && !BeforeFile(hi, files[i]) {
          assert Overlaps(files[i], lo, hi);
          return true;
        }
      }
      return false;
    }
    var index := 0;
    if lo.Some? {
      index := FindFile(files, SeekKey(lo.value, MAX_SEQUENCE));
    }
    if index >= |files| {
      return false;
    }
    r := !BeforeFile(hi, files[index]);
    assert MetaOk(files[index]);
    assert !AfterFile(lo, files[index]);
    assert r ==> Overlaps(files[index], lo, hi);
    forall f | f in files && Overlaps(f, lo, hi)
      ensures r
    {
      var j :| 0 <= j < |files| && files[j] == f;
      assert MetaOk(files[j]);
      if index < j {
        assert Before(files[index], files[j]);
      }
    }
  }

  // ----- choosing the files of a range

  function Filter(files: seq<File>, lo: Option<UserKey>, hi: Option<UserKey>): (r: seq<File>)
    ensures forall f :: f in r <==> f in files && Overlaps(f, lo, hi)
    ensures |r| <= |files|
  {
    if files == [] then []
    else
      var rest := Filter(files[..|files| - 1], lo, hi);
      var f := files[|files| - 1];
      if Overlaps(f, lo, hi) then rest + [f] else rest
  }

  lemma {:induction false} FilterInOrder(files: seq<File>, lo: Option<UserKey>, hi: Option<UserKey>)
    requires InOrder(files)
    ensures InOrder(Filter(files, lo, hi))
  {
    if files != [] {
      var init := files[..|files| - 1];
      FilterInOrder(init, lo, hi);
      forall g | g in Filter(init, lo, hi)
        ensures BySmallest(g, files[|files| - 1])
      {
        var i :| 0 <= i < |init| && init[i] == g;
        assert files[i] == g;
      }
      assert forall i :: 0 <= i < |Filter(init, lo, hi)| ==> Filter(init, lo, hi)[i] in Filter(init, lo, hi);
    }
  }

  predicate AtOrBelow(a: Option<UserKey>, b: Option<UserKey>) {
    a.None? || (b.Some? && a.value <= b.value)
  }

  predicate AtOrAbove(a: Option<UserKey>, b: Option<UserKey>) {
    a.None? || (b.Some? && a.value >= b.value)
  }

  /** The range holds every file that it touches. */
  ghost predicate Closed(files: seq<File>, lo: Option<UserKey>, hi: Option<UserKey>) {
    forall f :: f in files && Overlaps(f, lo, hi) ==>
      AtOrBelow(lo, Some(f.smallest.user)) && AtOrAbove(hi, Some(f.largest.user))
  }

  ghost function StartsBelow(files: seq<File>, lo: Option<UserKey>): set<int> {
    set i | 0 <= i < |files| && lo.Some? && files[i].smallest.user < lo.value
  }

  ghost function EndsAbove(files: seq<File>, hi: Option<UserKey>): set<int> {
    set i | 0 <= i < |files| && hi.Some? && files[i].largest.user > hi.value
  }

  /** Every closed range that contains the request contains [lo, hi]. */
  ghost predicate LeastClosed(files: seq<File>, begin: Option<UserKey>, end: Option<UserKey>,
                              lo: Option<UserKey>, hi: Option<UserKey>)
  {
    && AtOrBelow(lo, begin) && AtOrAbove(hi, end)
    && forall l, h :: Closed(files, l, h) && AtOrBelow(l, begin) && AtOrAbove(h, end) ==>
         AtOrBelow(l, lo) && AtOrAbove(h, hi)
  }

  /** Widening by a file that the range touches keeps it below every closed range. */
  lemma WidenKeepsLeast(files: seq<File>, f: File, begin: Option<UserKey>, end: Option<UserKey>,
                        lo: Option<UserKey>, hi: Option<UserKey>)
    requires f in files && Overlaps(f, lo, hi) && LeastClosed(files, begin, end, lo, hi)
    ensures lo.Some? && f.smallest.user < lo.value ==> LeastClosed(files, begin, end, Some(f.smallest.user), hi)
    ensures hi.Some? && f.largest.user > hi.value ==> LeastClosed(files, begin, end, lo, Some(f.largest.user))
  {
    forall l, h | Closed(files, l, h) && AtOrBelow(l, begin) && AtOrAbove(h, end)
      ensures AtOrBelow(l, Some(f.smallest.user)) && AtOrAbove(h, Some(f.largest.user))
    {
      assert Overlaps(f, l, h);
    }
  }

  /** One more file of a scan that does not widen the range. */
  lemma ScanOne(files: seq<File>, i: nat, lo: Option<UserKey>, hi: Option<UserKey>)
    requires i < |files|
    ensures Filter(files[..i + 1], lo, hi) ==
            Filter(files[..i], lo, hi) + (if Overlaps(files[i], lo, hi) then [files[i]] else [])
    ensures Closed(files[..i], lo, hi) &&
            (Overlaps(files[i], lo, hi) ==>
               AtOrBelow(lo, Some(files[i].smallest.user)) && AtOrAbove(hi, Some(files[i].largest.user)))
            ==> Closed(files[..i + 1], lo, hi)
  {
    assert files[..i + 1][..i] == files[..i];
    assert files[..i + 1] == files[..i] + [files[i]];
  }

  lemma NothingScanned(files: seq<File>, lo: Option<UserKey>, hi: Option<UserKey>)
    ensures Filter(files[..0], lo, hi) == [] && Closed(files[..0], lo, hi) && LeastClosed(files, lo, hi, lo, hi)
  {
  }

  /** A restart makes progress: fewer files start before the range, or end behind it. */
  lemma BeginMoves(files: seq<File>, i: nat, lo: Option<UserKey>)
    requires i < |files| && lo.Some? && files[i].smallest.user < lo.value
    ensures StartsBelow(files, Some(files[i].smallest.user)) < StartsBelow(files, lo)
  {
    assert i in StartsBelow(files, lo) && i !in StartsBelow(files, Some(files[i].smallest.user));
  }

  lemma EndMoves(files: seq<File>, i: nat, hi: Option<UserKey>)
    requires i < |files| && hi.Some? && files[i].largest.user > hi.value
    ensures EndsAbove(files, Some(files[i].largest.user)) < EndsAbove(files, hi)
  {
    assert i in EndsAbove(files, hi) && i !in EndsAbove(files, Some(files[i].largest.user));
  }

  /** GetOverlappingInputs.  At level 0 the loop restarts whenever a chosen file
      widens the range; `lo` and `hi` are its final bounds.  They form the least
      range that contains the request and every file it touches, and the chosen
      files are exactly those it touches.  Elsewhere the range never moves. */
  method GetOverlappingInputs(level: nat, files: seq<File>, begin: Option<UserKey>, end: Option<UserKey>)
    returns (inputs: seq<File>, lo: Option<UserKey>, hi: Option<UserKey>)
    ensures inputs == Filter(files, lo, hi)
    ensures level > 0 ==> lo == begin && hi == end
    ensures level == 0 ==> Closed(files, lo, hi) && LeastClosed(files, begin, end, lo, hi)
  {
    hide Filter, Closed, LeastClosed, StartsBelow, EndsAbove;
    NothingScanned(files, begin, end);
    var userBegin, userEnd := begin, end;
    inputs := [];
    var i := 0;
    while i < |files|
      invariant 0 <= i <= |files|
      invariant inputs == Filter(files[..i], userBegin, userEnd)
      invariant level > 0 ==> userBegin == begin && userEnd == end
      invariant level == 0 ==> Closed(files[..i], userBegin, userEnd)
      invariant LeastClosed(files, begin, end, userBegin, userEnd)
      decreases StartsBelow(files, userBegin), EndsAbove(files, userEnd), |files| - i
    {
      var f := files[i];
      ScanOne(files, i, userBegin, userEnd);
      i := i + 1;
      if userBegin.Some? && f.largest.user < userBegin.value {
      } else if userEnd.Some? && f.smallest.user > userEnd.value {
      } else {
        inputs := inputs + [f];
        if level == 0 {
          WidenKeepsLeast(files, f, begin, end, userBegin, userEnd);
          if userBegin.Some? && f.smallest.user < userBegin.value {
            BeginMoves(files, i - 1, userBegin);
            userBegin := Some(f.smallest.user);
            NothingScanned(files, userBegin, userEnd);
            inputs := [];
            i := 0;
          } else if userEnd.Some? && f.largest.user > userEnd.value {
            EndMoves(files, i - 1, userEnd);
            userEnd := Some(f.largest.user);
            NothingScanned(files, userBegin, userEnd);
            inputs := [];
            i := 0;
          }
        }
      }
    }
    assert files[..i] == files;
    lo, hi := userBegin, userEnd;
  }

  function TotalFileSize(files: seq<File>): (sum: nat) {
    if files == [] then 0 else files[0].size + TotalFileSize(files[1..])
  }

  const TARGET_FILE_SIZE := 2 * 1048576
  const MAX_GRANDPARENT_OVERLAP_BYTES := 10 * TARGET_FILE_SIZE
  const EXPANDED_COMPACTION_BYTE_SIZE_LIMIT := 25 * TARGET_FILE_SIZE

  ghost predicate LevelsShape(levels: seq<seq<File>>) {
    && |levels| == NUM_LEVELS
    && (forall l :: 0 <= l < NUM_LEVELS ==> AllMeta(levels[l]) && InOrder(levels[l]))
    && (forall l :: 1 <= l < NUM_LEVELS ==> Disjoint(levels[l]))
  }

  /** No file of levels 0..`level` meets the user-key range. */
  ghost predicate FreeDownTo(levels: seq<seq<File>>, level: int, lo: UserKey, hi: UserKey)
    requires |levels| == NUM_LEVELS
  {
    forall l, f :: 0 <= l <= level && l < NUM_LEVELS && f in levels[l] ==> !Overlaps(f, Some(lo), Some(hi))
  }

  ghost predicate Meets(files: seq<File>, lo: UserKey, hi: UserKey) {
    exists f :: f in files && Overlaps(f, Some(lo), Some(hi))
  }

  /** A new table may go from level `l` to the next: nothing there meets it, and it does
      not meet too many bytes one level further down. */
  ghost predicate GoesDown(levels: seq<seq<File>>, l: nat, lo: UserKey, hi: UserKey)
    requires |levels| == NUM_LEVELS && l < MAX_MEM_COMPACT_LEVEL
  {
    && !Meets(levels[l + 1], lo, hi)
    && TotalFileSize(Filter(levels[l + 2], Some(lo), Some(hi))) <= MAX_GRANDPARENT_OVERLAP_BYTES
  }

  /** The level of a flushed table: 0 if something there meets it, else the deepest one
      it can go down to. */
  ghost predicate IsOutputLevel(levels: seq<seq<File>>, lo: UserKey, hi: UserKey, level: nat)
    requires |levels| == NUM_LEVELS
  {
    && level <= MAX_MEM_COMPACT_LEVEL
    && if Meets(levels[0], lo, hi) then level == 0
       else
         && (forall l :: 0 <= l < level ==> GoesDown(levels, l, lo, hi))
         && (level < MAX_MEM_COMPACT_LEVEL ==> !GoesDown(levels, level, lo, hi))
  }

  /** PickLevelForMemTableOutput: a flushed table goes below level 0 only where
      nothing at its level or above meets its range. */
  method PickLevelForMemTableOutput(levels: seq<seq<File>>, smallest: UserKey, largest: UserKey)
    returns (level: nat)
    requires LevelsShape(levels)
    ensures IsOutputLevel(levels, smallest, largest, level)
    ensures level > 0 ==> FreeDownTo(levels, level, smallest, largest)
  {
    hide TotalFileSize, Filter;
    level := 0;
    var overlap := SomeFileOverlapsRange(false, levels[0], Some(smallest), Some(largest));
    if !overlap {
      while level < MAX_MEM_COMPACT_LEVEL
        invariant level <= MAX_MEM_COMPACT_LEVEL
        invariant FreeDownTo(levels, level, smallest, largest)
        invariant forall l :: 0 <= l < level ==> GoesDown(levels, l, smallest, largest)
      {
        overlap := SomeFileOverlapsRange(true, levels[level + 1], Some(smallest), Some(largest));
        if overlap {
          break;
        }
        if level + 2 < NUM_LEVELS {
          var overlaps, _, _ := GetOverlappingInputs(level + 2, levels[level + 2], Some(smallest), Some(largest));
          if TotalFileSize(overlaps) > MAX_GRANDPARENT_OVERLAP_BYTES {
            break;
          }
        }
        level := level + 1;
      }
    }
  }
}
