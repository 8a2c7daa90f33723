/** Picking the inputs of a compaction and running its loop
    (db/version_set.cc, db/db_impl.cc). */
module Compaction {
  import opened Format
  import opened Version
  import opened Lsm
  import opened LsmLevels

  // ----- picking inputs

  /** VersionSet::GetRange: the least and greatest internal key of the files. */
  method GetRange(files: seq<File>) returns (smallest: InternalKey, largest: InternalKey)
    requires files != []
    ensures forall f :: f in files ==> !Less(f.smallest, smallest) && !Less(largest, f.largest)
    ensures (exists f :: f in files && f.smallest == smallest) && (exists f :: f in files && f.largest == largest)
  {
    smallest, largest := files[0].smallest, files[0].largest;
    for i := 1 to |files|
      invariant forall j :: 0 <= j < i ==> !Less(files[j].smallest, smallest) && !Less(largest, files[j].largest)
      invariant (exists j :: 0 <= j < i && files[j].smallest == smallest)
                && (exists j :: 0 <= j < i && files[j].largest == largest)
    {
      if Less(files[i].smallest, smallest) {
        smallest := files[i].smallest;
      }
      if Less(largest, files[i].largest) {
        largest := files[i].largest;
      }
    }
  }

  /** Upper inputs that SetupOtherInputs may start from: at level 0, the files
      that some closed range touches. */
  ghost predicate Startable(levels: seq<seq<File>>, from: nat, in0: seq<File>) {
    && LevelsShape(levels) && from + 1 < NUM_LEVELS && in0 != [] && InOrder(in0)
    && (forall f :: f in in0 ==> f in levels[from])
    && (from == 0 ==> exists lo, hi :: Closed(levels[0], lo, hi) && in0 == Filter(levels[0], lo, hi))
  }

  lemma HullIsChosen(levels: seq<seq<File>>, from: nat, in0: seq<File>, in1: seq<File>, smallest: InternalKey,
                     largest: InternalKey)
    requires Startable(levels, from, in0)
    requires forall f :: f in in0 ==> !Less(f.smallest, smallest) && !Less(largest, f.largest)
    requires (exists f :: f in in0 && f.smallest == smallest) && (exists f :: f in in0 && f.largest == largest)
    requires in1 == Filter(levels[from + 1], Some(smallest.user), Some(largest.user))
    ensures Chosen(levels, from, in0, in1, smallest.user, largest.user)
  {
    if from == 0 {
      var lo, hi :| Closed(levels[0], lo, hi) && in0 == Filter(levels[0], lo, hi);
      forall f | f in levels[0] && f !in in0
        ensures !Overlaps(f, Some(smallest.user), Some(largest.user))
      {
        var a :| a in in0 && a.smallest == smallest;
        var b :| b in in0 && b.largest == largest;
        assert Overlaps(a, lo, hi) && Overlaps(b, lo, hi) && !Overlaps(f, lo, hi);
      }
    }
  }

  // ----- what the inputs are

  /** The least user key of the files. */
  function LeastUser(files: seq<File>): UserKey
    requires files != []
  {
    var k := files[0].smallest.user;
    if |files| == 1 then k else var m := LeastUser(files[1..]); if k < m then k else m
  }

  function GreatestUser(files: seq<File>): UserKey
    requires files != []
  {
    var k := files[0].largest.user;
    if |files| == 1 then k else var m := GreatestUser(files[1..]); if k > m then k else m
  }

  lemma {:induction false} HullIs(files: seq<File>, lo: UserKey, hi: UserKey)
    requires files != [] && forall f :: f in files ==> lo <= f.smallest.user && f.largest.user <= hi
    requires (exists f :: f in files && f.smallest.user == lo) && (exists f :: f in files && f.largest.user == hi)
    ensures LeastUser(files) == lo && GreatestUser(files) == hi
  {
    HullBounds(files);
  }

  lemma {:induction false} HullBounds(files: seq<File>)
    requires files != []
    ensures forall f :: f in files ==> LeastUser(files) <= f.smallest.user && f.largest.user <= GreatestUser(files)
    ensures exists f :: f in files && f.smallest.user == LeastUser(files)
    ensures exists f :: f in files && f.largest.user == GreatestUser(files)
  {
    assert files[0] in files;
    if |files| > 1 {
      HullBounds(files[1..]);
      assert files == [files[0]] + files[1..];
    }
  }

  /** The files of the next level that the hull of the files meets. */
  function LowerOf(levels: seq<seq<File>>, from: nat, files: seq<File>): seq<File>
    requires from + 1 < |levels| && files != []
  {
    Filter(levels[from + 1], Some(LeastUser(files)), Some(GreatestUser(files)))
  }

  /** The files that a range takes: at level 0 those of the least range that contains it
      and every file it touches. */
  ghost predicate Touched(level: nat, files: seq<File>, begin: Option<UserKey>, end: Option<UserKey>, r: seq<File>) {
    if level > 0 then r == Filter(files, begin, end)
    else exists lo, hi :: Closed(files, lo, hi) && LeastClosed(files, begin, end, lo, hi) && r == Filter(files, lo, hi)
  }

  /** `more` can replace the picked files: they are more, few enough bytes in all, and
      meet no more files of the next level. */
  ghost predicate CanGrow(levels: seq<seq<File>>, from: nat, picked: seq<File>, more: seq<File>)
    requires from + 1 < |levels| && picked != []
  {
    var lower := LowerOf(levels, from, picked);
    && lower != [] && |more| > |picked|
    && Touched(from, levels[from], Some(LeastUser(picked + lower)), Some(GreatestUser(picked + lower)), more)
    && TotalFileSize(lower) + TotalFileSize(more) < EXPANDED_COMPACTION_BYTE_SIZE_LIMIT
    && LowerOf(levels, from, more) == lower
  }

  /** The lower inputs are those that the picked files meet; the upper inputs are the
      picked ones, unless more can be had. */
  ghost predicate Grown(levels: seq<seq<File>>, from: nat, picked: seq<File>, inputs0: seq<File>, inputs1: seq<File>)
    requires from + 1 < |levels| && picked != []
  {
    && inputs1 == LowerOf(levels, from, picked)
    && if inputs0 == picked then forall more :: !CanGrow(levels, from, picked, more)
       else CanGrow(levels, from, picked, inputs0)
  }

  /** Only one list of files is touched. */
  lemma TouchedOnce(level: nat, files: seq<File>, begin: Option<UserKey>, end: Option<UserKey>, a: seq<File>,
                    b: seq<File>)
    requires Touched(level, files, begin, end, a) && Touched(level, files, begin, end, b)
    ensures a == b
  {
    hide Filter, Closed;
    if level == 0 {
      var lo, hi :| Closed(files, lo, hi) && LeastClosed(files, begin, end, lo, hi) && a == Filter(files, lo, hi);
      var lo', hi' :| Closed(files, lo', hi') && LeastClosed(files, begin, end, lo', hi')
          && b == Filter(files, lo', hi');
      assert lo == lo' && hi == hi';
    }
  }

  /** A wider range takes the same files or more. */
  lemma {:induction false} WiderFilter(files: seq<File>, lo: UserKey, hi: UserKey, lo': UserKey, hi': UserKey)
    requires lo' <= lo && hi <= hi'
    ensures var a, b := Filter(files, Some(lo), Some(hi)), Filter(files, Some(lo'), Some(hi'));
            |a| <= |b| && (|a| == |b| ==> a == b)
  {
    if files != [] {
      WiderFilter(files[..|files| - 1], lo, hi, lo', hi');
    }
  }

  /** VersionSet::SetupOtherInputs: the lower inputs, and the attempt to grow the
      upper inputs without adding lower ones. */
  method SetupOtherInputs(levels: seq<seq<File>>, from: nat, in0: seq<File>)
    returns (inputs0: seq<File>, inputs1: seq<File>, lo: UserKey, hi: UserKey)
    requires Startable(levels, from, in0)
    ensures Chosen(levels, from, inputs0, inputs1, lo, hi)
    ensures InOrder(inputs0) && InOrder(inputs1)
    ensures Grown(levels, from, in0, inputs0, inputs1)
  {
    hide Chosen, LeastClosed, Closed;
    var smallest, largest := GetRange(in0);
    RangeIsHull(in0, smallest, largest);
    inputs0 := in0;
    ghost var l, h;
    inputs1, l, h := GetOverlappingInputs(from + 1, levels[from + 1], Some(smallest.user), Some(largest.user));
    FilterInOrder(levels[from + 1], l, h);
    HullIsChosen(levels, from, inputs0, inputs1, smallest, largest);
    lo, hi := smallest.user, largest.user;
    if inputs1 != [] {
      inputs0, inputs1, lo, hi := Expand(levels, from, inputs0, inputs1, lo, hi);
    }
  }

  /** The user keys of the range are the hull. */
  lemma RangeIsHull(files: seq<File>, smallest: InternalKey, largest: InternalKey)
    requires files != [] && forall f :: f in files ==> !Less(f.smallest, smallest) && !Less(largest, f.largest)
    requires (exists f :: f in files && f.smallest == smallest) && (exists f :: f in files && f.largest == largest)
    ensures LeastUser(files) == smallest.user && GreatestUser(files) == largest.user
  {
    HullIs(files, smallest.user, largest.user);
  }

  /** More upper inputs, if they need no more lower ones and stay below the limit. */
  method Expand(levels: seq<seq<File>>, from: nat, in0: seq<File>, in1: seq<File>, low: UserKey, high: UserKey)
    returns (inputs0: seq<File>, inputs1: seq<File>, lo: UserKey, hi: UserKey)
    requires Startable(levels, from, in0) && Chosen(levels, from, in0, in1, low, high) && InOrder(in1) && in1 != []
    requires in1 == LowerOf(levels, from, in0)
    ensures Chosen(levels, from, inputs0, inputs1, lo, hi)
    ensures InOrder(inputs0) && InOrder(inputs1)
    ensures Grown(levels, from, in0, inputs0, inputs1)
  {
    hide Chosen, LeastClosed, TotalFileSize, Touched, LowerOf, Filter, Closed;
    inputs0, inputs1, lo, hi := in0, in1, low, high;
    var allStart, allLimit := GetRange(in0 + in1);
    RangeIsHull(in0 + in1, allStart, allLimit);
    var expanded0, l, h := GetOverlappingInputs(from, levels[from], Some(allStart.user), Some(allLimit.user));
    ExpandedTouched(levels, from, in0, in1, expanded0, l, h);
    if |expanded0| > |in0|
       && TotalFileSize(in1) + TotalFileSize(expanded0) < EXPANDED_COMPACTION_BYTE_SIZE_LIMIT {
      FilterInOrder(levels[from], l, h);
      StillStartable(levels, from, expanded0, l, h);
      var newStart, newLimit := GetRange(expanded0);
      RangeIsHull(expanded0, newStart, newLimit);
      FilterInOrder(levels[from + 1], Some(newStart.user), Some(newLimit.user));
      var expanded1, _, _ := GetOverlappingInputs(from + 1, levels[from + 1], Some(newStart.user), Some(newLimit.user));
      LowerIsFilter(levels, from, expanded0, newStart.user, newLimit.user);
      NoFewerLower(levels, from, in0, expanded0);
      if |expanded1| == |in1| {
        HullIsChosen(levels, from, expanded0, expanded1, newStart, newLimit);
        inputs0, inputs1, lo, hi := expanded0, expanded1, newStart.user, newLimit.user;
      }
    }
  }

  lemma LowerIsFilter(levels: seq<seq<File>>, from: nat, files: seq<File>, lo: UserKey, hi: UserKey)
    requires from + 1 < |levels| && files != [] && LeastUser(files) == lo && GreatestUser(files) == hi
    ensures LowerOf(levels, from, files) == Filter(levels[from + 1], Some(lo), Some(hi))
  {
  }

  /** The attempt considers the only list there is. */
  lemma ExpandedTouched(levels: seq<seq<File>>, from: nat, in0: seq<File>, in1: seq<File>, more: seq<File>,
                        l: Option<UserKey>, h: Option<UserKey>)
    requires Startable(levels, from, in0) && in1 == LowerOf(levels, from, in0) && more == Filter(levels[from], l, h)
    requires var begin, end := Some(LeastUser(in0 + in1)), Some(GreatestUser(in0 + in1));
             if from > 0 then l == begin && h == end
             else Closed(levels[0], l, h) && LeastClosed(levels[0], begin, end, l, h)
    ensures forall f :: f in in0 ==> f in more
    ensures Touched(from, levels[from], Some(LeastUser(in0 + in1)), Some(GreatestUser(in0 + in1)), more)
    ensures forall other :: CanGrow(levels, from, in0, other) ==> other == more
  {
    hide LowerOf;
    var begin, end := Some(LeastUser(in0 + in1)), Some(GreatestUser(in0 + in1));
    HullBounds(in0 + in1);
    forall f | f in in0
      ensures f in more
    {
      assert f in in0 + in1 && f in levels[from] && MetaOk(f);
    }
    forall other | CanGrow(levels, from, in0, other)
      ensures other == more
    {
      TouchedOnce(from, levels[from], begin, end, other, more);
    }
  }

  /** More upper files meet the same lower files or more. */
  lemma NoFewerLower(levels: seq<seq<File>>, from: nat, a: seq<File>, b: seq<File>)
    requires from + 1 < |levels| && a != [] && b != [] && forall f :: f in a ==> f in b
    ensures |LowerOf(levels, from, a)| <= |LowerOf(levels, from, b)|
    ensures |LowerOf(levels, from, a)| == |LowerOf(levels, from, b)| ==>
              LowerOf(levels, from, a) == LowerOf(levels, from, b)
  {
    HullBounds(a);
    HullBounds(b);
    WiderFilter(levels[from + 1], LeastUser(a), GreatestUser(a), LeastUser(b), GreatestUser(b));
  }

  lemma StillStartable(levels: seq<seq<File>>, from: nat, in0: seq<File>, lo: Option<UserKey>, hi: Option<UserKey>)
    requires LevelsShape(levels) && from + 1 < NUM_LEVELS && in0 != [] && InOrder(in0)
    requires in0 == Filter(levels[from], lo, hi) && (from == 0 ==> Closed(levels[0], lo, hi))
    ensures Startable(levels, from, in0)
  {
    FilterInOrder(levels[from], lo, hi);
  }

  /** What made PickCompaction run: a level over its size limit with its compact
      pointer, or a file that was sought in vain too often. */
  datatype Trigger = SizeCompaction(level: nat, pointer: Option<InternalKey>) | SeekCompaction(level: nat, file: File)

  /** The first file behind the compact pointer, or the first file of all. */
  function FirstBehind(files: seq<File>, pointer: Option<InternalKey>, i: nat): (f: File)
    requires files != [] && i <= |files|
    ensures f in files
    decreases |files| - i
  {
    if i == |files| then files[0]
    else if pointer.None? || Less(pointer.value, files[i].largest) then files[i]
    else FirstBehind(files, pointer, i + 1)
  }

  /** It is the first file that ends behind the pointer, or the first of all if none does. */
  lemma {:induction false} FirstBehindIs(files: seq<File>, pointer: Option<InternalKey>) returns (i: nat)
    requires files != []
    ensures i < |files| && FirstBehind(files, pointer, 0) == files[i]
    ensures forall j :: 0 <= j < i ==> !EndsBehind(files[j], pointer)
    ensures EndsBehind(files[i], pointer) || (i == 0 && forall f :: f in files ==> !EndsBehind(f, pointer))
  {
    i := FirstBehindFrom(files, pointer, 0);
  }

  predicate EndsBehind(f: File, pointer: Option<InternalKey>) {
    pointer.None? || Less(pointer.value, f.largest)
  }

  lemma {:induction false} FirstBehindFrom(files: seq<File>, pointer: Option<InternalKey>, n: nat) returns (i: nat)
    requires files != [] && n <= |files| && forall j :: 0 <= j < n ==> !EndsBehind(files[j], pointer)
    ensures i < |files| && FirstBehind(files, pointer, n) == files[i]
    ensures forall j :: 0 <= j < i ==> !EndsBehind(files[j], pointer)
    ensures EndsBehind(files[i], pointer) || (i == 0 && forall f :: f in files ==> !EndsBehind(f, pointer))
    decreases |files| - n
  {
    if n == |files| {
      i := 0;
    } else if EndsBehind(files[n], pointer) {
      i := n;
    } else {
      i := FirstBehindFrom(files, pointer, n + 1);
    }
  }

  /** The file that a compaction starts from. */
  function PickedFile(levels: seq<seq<File>>, trigger: Trigger): File
    requires trigger.level < |levels| && levels[trigger.level] != []
  {
    match trigger
    case SizeCompaction(level, pointer) => FirstBehind(levels[level], pointer, 0)
    case SeekCompaction(_, file) => file
  }

  /** What SetupOtherInputs starts from: the picked file, at level 0 with every file that
      its range takes. */
  ghost predicate PicksFrom(levels: seq<seq<File>>, trigger: Trigger, picked: seq<File>)
    requires trigger.level < |levels| && levels[trigger.level] != []
  {
    var f := PickedFile(levels, trigger);
    if trigger.level > 0 then picked == [f]
    else picked != [] && Touched(0, levels[0], Some(f.smallest.user), Some(f.largest.user), picked)
  }

  /** VersionSet::PickCompaction.  `picked` is what SetupOtherInputs starts from. */
  method PickCompaction(levels: seq<seq<File>>, trigger: Trigger)
    returns (picked: seq<File>, inputs0: seq<File>, inputs1: seq<File>, lo: UserKey, hi: UserKey)
    requires LevelsShape(levels) && trigger.level + 1 < NUM_LEVELS && levels[trigger.level] != []
    requires trigger.SeekCompaction? ==> trigger.file in levels[trigger.level]
    ensures Chosen(levels, trigger.level, inputs0, inputs1, lo, hi) && InOrder(inputs0) && InOrder(inputs1)
    ensures PicksFrom(levels, trigger, picked) && Grown(levels, trigger.level, picked, inputs0, inputs1)
    ensures PickedFile(levels, trigger) in picked
  {
    var level, files := trigger.level, levels[trigger.level];
    match trigger {
      case SizeCompaction(_, pointer) =>
        picked := [];
        var i := 0;
        while i < |files| && picked == []
          invariant 0 <= i <= |files|
          invariant if picked == [] then FirstBehind(files, pointer, i) == FirstBehind(files, pointer, 0)
                    else picked == [FirstBehind(files, pointer, 0)]
        {
          if pointer.None? || Less(pointer.value, files[i].largest) {
            picked := [files[i]];
          }
          i := i + 1;
        }
        if picked == [] {
          picked := [files[0]];
        }
      case SeekCompaction(_, file) =>
        picked := [file];
    }
    if level == 0 {
      var smallest, largest := GetRange(picked);
      var f := picked[0];
      assert f in picked && f in files && MetaOk(f);
      ghost var l, h;
      picked, l, h := GetOverlappingInputs(0, files, Some(smallest.user), Some(largest.user));
      FilterInOrder(files, l, h);
      assert Overlaps(f, l, h) && f in picked;
    }
    inputs0, inputs1, lo, hi := SetupOtherInputs(levels, level, picked);
  }

  /** The files up to the one with which their total size reaches the limit. */
  function CutAtSize(files: seq<File>, n: nat): (r: seq<File>)
    requires n <= |files|
    ensures r <= files && (n < |files| ==> n < |r|)
    decreases |files| - n
  {
    if n == |files| then files
    else if TotalFileSize(files[..n + 1]) >= TARGET_FILE_SIZE then files[..n + 1]
    else CutAtSize(files, n + 1)
  }

  /** Before the total size reaches the limit nothing is cut, and where it does the rest is. */
  lemma CutAtSizeIs(files: seq<File>)
    ensures var r := CutAtSize(files, 0);
            && r <= files && (r == files || TotalFileSize(r) >= TARGET_FILE_SIZE)
            && forall n :: 0 <= n < |r| ==> TotalFileSize(files[..n]) < TARGET_FILE_SIZE
  {
    assert files[..0] == [] && TotalFileSize([]) == 0;
    CutFrom(files, 0);
  }

  lemma {:induction false} CutFrom(files: seq<File>, n: nat)
    requires n <= |files| && forall m :: 0 <= m <= n ==> TotalFileSize(files[..m]) < TARGET_FILE_SIZE
    ensures var r := CutAtSize(files, n);
            && r <= files && (r == files || TotalFileSize(r) >= TARGET_FILE_SIZE)
            && forall m :: 0 <= m < |r| ==> TotalFileSize(files[..m]) < TARGET_FILE_SIZE
    decreases |files| - n
  {
    hide TotalFileSize;
    if n < |files| && TotalFileSize(files[..n + 1]) < TARGET_FILE_SIZE {
      CutFrom(files, n + 1);
    }
  }

  /** The files of a manual step: those that the range takes, above level 0 cut by size. */
  ghost predicate TakesRange(levels: seq<seq<File>>, level: nat, begin: Option<UserKey>, end: Option<UserKey>,
                             picked: seq<File>)
    requires level < |levels|
  {
    if level > 0 then picked == CutAtSize(Filter(levels[level], begin, end), 0)
    else Touched(0, levels[0], begin, end, picked)
  }

  /** VersionSet::CompactRange: nothing to do, or the inputs of one manual step.
      Above level 0 the list is cut once it is big enough. */
  method CompactRange(levels: seq<seq<File>>, level: nat, begin: Option<UserKey>, end: Option<UserKey>)
    returns (picked: seq<File>, inputs0: seq<File>, inputs1: seq<File>, lo: UserKey, hi: UserKey)
    requires LevelsShape(levels) && level + 1 < NUM_LEVELS
    ensures picked != [] ==> Chosen(levels, level, inputs0, inputs1, lo, hi) && InOrder(inputs0) && InOrder(inputs1)
    ensures picked != [] ==> Grown(levels, level, picked, inputs0, inputs1)
    ensures picked != [] <==> exists f :: f in levels[level] && Overlaps(f, begin, end)
    ensures TakesRange(levels, level, begin, end, picked)
  {
    var l, h;
    picked, l, h := GetOverlappingInputs(level, levels[level], begin, end);
    inputs0, inputs1, lo, hi := [], [], 0, 0;
    if picked == [] {
      forall f | f in levels[level] && Overlaps(f, begin, end)
        ensures f in picked
      {
        assert Overlaps(f, l, h);
      }
      return;
    }
    LeastTouches(level, levels[level], begin, end, picked, l, h);
    FilterInOrder(levels[level], l, h);
    if level > 0 {
      picked := CutList(picked);
    }
    inputs0, inputs1, lo, hi := SetupOtherInputs(levels, level, picked);
  }

  method CutList(files: seq<File>) returns (r: seq<File>)
    ensures r == CutAtSize(files, 0)
  {
    var total := 0;
    for i := 0 to |files|
      invariant total == TotalFileSize(files[..i]) && CutAtSize(files, i) == CutAtSize(files, 0)
    {
      total := total + files[i].size;
      TotalAppend(files, i);
      if total >= TARGET_FILE_SIZE {
        return files[..i + 1];
      }
    }
    r := files;
  }

  lemma {:induction false} TotalAppend(files: seq<File>, i: nat)
    requires i < |files|
    ensures TotalFileSize(files[..i + 1]) == TotalFileSize(files[..i]) + files[i].size
  {
    if i > 0 {
      TotalAppend(files[1..], i - 1);
      assert files[1..][..i] == files[..i + 1][1..] && files[1..][..i - 1] == files[..i][1..];
    }
  }

  /** A request that touches no file is closed already, so the least closed range
      around it touches none either. */
  lemma LeastTouches(level: nat, files: seq<File>, begin: Option<UserKey>, end: Option<UserKey>, inputs: seq<File>,
                     lo: Option<UserKey>, hi: Option<UserKey>)
    requires inputs == Filter(files, lo, hi) && inputs != []
    requires level > 0 ==> lo == begin && hi == end
    requires level == 0 ==> LeastClosed(files, begin, end, lo, hi)
    ensures exists f :: f in files && Overlaps(f, begin, end)
  {
    var g := inputs[0];
    assert g in inputs;
    if level == 0 && !exists f :: f in files && Overlaps(f, begin, end) {
      assert Closed(files, begin, end);
      assert AtOrBelow(begin, begin) && AtOrAbove(end, end);
      assert Overlaps(g, begin, end);
    }
  }

  // ----- the advancing base-level test

  class BaseLevelCursor {
    const levels: seq<seq<File>>
    const from: nat
    const levelPtrs: array<nat>
    ghost var lastKey: Option<UserKey>

    ghost predicate Valid()
      reads this, levelPtrs
    {
      && LevelsShape(levels) && from < NUM_LEVELS && levelPtrs.Length == NUM_LEVELS
      && forall l :: from + 2 <= l < NUM_LEVELS ==> Passed(levels[l], levelPtrs[l], lastKey)
    }

    /** The first `p` files end before the key. */
    static ghost predicate Passed(files: seq<File>, p: nat, key: Option<UserKey>) {
      p <= |files| && forall i :: 0 <= i < p ==> key.Some? && files[i].largest.user < key.value
    }

    /** The first `p` files end before the key, and the next one starts behind it. */
    static lemma NoneCovers(levels: seq<seq<File>>, l: nat, p: nat, u: UserKey)
      requires LevelsShape(levels) && 1 <= l < NUM_LEVELS && Passed(levels[l], p, Some(u))
      requires p < |levels[l]| ==> u < levels[l][p].smallest.user
      ensures forall f :: f in levels[l] ==> !(f.smallest.user <= u <= f.largest.user)
    {
      var files := levels[l];
      forall f | f in files
        ensures !(f.smallest.user <= u <= f.largest.user)
      {
        var i :| 0 <= i < |files| && files[i] == f;
        if i > p {
          assert Before(files[p], files[i]) && MetaOk(files[p]);
        }
      }
    }

    constructor (levels: seq<seq<File>>, from: nat)
      requires LevelsShape(levels) && from < NUM_LEVELS
      ensures Valid() && this.levels == levels && this.from == from && lastKey == None && fresh(levelPtrs)
    {
      this.levels := levels;
      this.from := from;
      levelPtrs := new nat[NUM_LEVELS](_ => 0);
      lastKey := None;
    }

    /** Compaction::IsBaseLevelForKey: for keys that never decrease, the cursors
        that only advance give the answer of a full scan. */
    method IsBaseLevelForKey(u: UserKey) returns (r: bool)
      requires Valid() && (lastKey.Some? ==> lastKey.value <= u)
      modifies this`lastKey, levelPtrs
      ensures Valid() && lastKey == Some(u)
      ensures r <==> IsBase(levels, from, u)
    {
      lastKey := Some(u);
      var lvl := from + 2;
      while lvl < NUM_LEVELS
        invariant from + 2 <= lvl && Valid() && lastKey == Some(u)
        invariant forall l, f :: from + 2 <= l < lvl && l < NUM_LEVELS && f in levels[l] ==>
                    !(f.smallest.user <= u <= f.largest.user)
      {
        var files := levels[lvl];
        while levelPtrs[lvl] < |files| && u > files[levelPtrs[lvl]].largest.user
          invariant Valid() && lastKey == Some(u)
          decreases |files| - levelPtrs[lvl]
        {
          levelPtrs[lvl] := levelPtrs[lvl] + 1;
        }
        var p := levelPtrs[lvl];
        assert Passed(files, p, lastKey);
        if p < |files| && u >= files[p].smallest.user {
          assert files[p] in levels[lvl];
          return false;
        }
        NoneCovers(levels, lvl, p, u);
        lvl := lvl + 1;
      }
      r := true;
    }
  }

  // ----- the compaction loop

  /** Finished outputs carry increasing numbers below that of the open table, and
      outputs and open table together are sorted. */
  ghost predicate BuildOk(first: nat, outs: seq<File>, builder: seq<Entry>, number: nat, limit: nat) {
    && first <= limit
    && NumbersFrom(outs, first, if builder == [] then limit else number)
    && (builder != [] ==> first <= number < limit)
    && (forall f :: f in outs ==> FileOk(f))
    && Sorted(Contents(outs) + builder)
    && forall e :: e in builder ==> e.key.sequence <= MAX_SEQUENCE
  }

  lemma AddOk(first: nat, outs: seq<File>, builder: seq<Entry>, number: nat, limit: nat, e: Entry)
    requires BuildOk(first, outs, builder, number, limit) && e.key.sequence <= MAX_SEQUENCE
    requires forall x :: x in Contents(outs) + builder ==> Less(x.key, e.key)
    ensures Contents(outs) + (builder + [e]) == Contents(outs) + builder + [e]
    ensures if builder == [] then BuildOk(first, outs, [e], limit, limit + 1)
            else BuildOk(first, outs, builder + [e], number, limit)
  {
    AppendSorted(Contents(outs) + builder, e);
    assert Contents(outs) + (builder + [e]) == Contents(outs) + builder + [e];
    assert builder == [] ==> builder + [e] == [e];
  }

  /** Finished outputs, the open table, its number and size, and the next number. */
  datatype Building = Building(outs: seq<File>, builder: seq<Entry>, number: nat, size: nat, limit: nat)

  function WithEntry(b: Building, e: Entry, size: nat): Building {
    if b.builder == [] then Building(b.outs, [e], b.limit, size, b.limit + 1)
    else Building(b.outs, b.builder + [e], b.number, size, b.limit)
  }

  /** The open table is finished, if asked and there is one. */
  function Finished(b: Building, wanted: bool): Building {
    if wanted && b.builder != [] then b.(outs := b.outs + [FileOf(b.number, b.size, b.builder)], builder := []) else b
  }

  /** After `n` entries.  A table ends before an entry where ShouldStopBefore says so, and
      behind the entry with which it reaches the target size. */
  ghost function Outputs(merged: seq<Entry>, n: nat, snapshot: nat, levels: seq<seq<File>>, from: nat,
                         stopBefore: nat -> bool, sizeAfter: nat -> nat, nextFile: nat): Building
    requires n <= |merged| && |levels| == NUM_LEVELS
  {
    if n == 0 then Building([], [], 0, 0, nextFile)
    else
      var before := Outputs(merged, n - 1, snapshot, levels, from, stopBefore, sizeAfter, nextFile);
      var b := Finished(before, stopBefore(n - 1));
      if Dropped(merged, n - 1, snapshot, levels, from) then b
      else
        var more := WithEntry(b, merged[n - 1], sizeAfter(n - 1));
        Finished(more, more.size >= TARGET_FILE_SIZE)
  }

  /** Where nothing asks to stop, every output but the last has reached the target size,
      and the open table has not. */
  lemma {:induction false} CutsAtTarget(merged: seq<Entry>, n: nat, snapshot: nat, levels: seq<seq<File>>, from: nat,
                                        stopBefore: nat -> bool, sizeAfter: nat -> nat, nextFile: nat)
    requires n <= |merged| && |levels| == NUM_LEVELS && forall i :: 0 <= i < n ==> !stopBefore(i)
    ensures var b := Outputs(merged, n, snapshot, levels, from, stopBefore, sizeAfter, nextFile);
            && (forall f :: f in b.outs ==> f.size >= TARGET_FILE_SIZE)
            && (b.builder != [] ==> b.size < TARGET_FILE_SIZE)
  {
    hide Dropped;
    if n > 0 {
      CutsAtTarget(merged, n - 1, snapshot, levels, from, stopBefore, sizeAfter, nextFile);
    }
  }

  /** Where ShouldStopBefore asks for it a table ends: what the entries before went to
      stands, whatever follows. */
  lemma {:induction false} CutsWhereAsked(merged: seq<Entry>, i: nat, n: nat, snapshot: nat, levels: seq<seq<File>>,
                                          from: nat, stopBefore: nat -> bool, sizeAfter: nat -> nat, nextFile: nat)
    requires i < n <= |merged| && |levels| == NUM_LEVELS && stopBefore(i)
    ensures var before := Outputs(merged, i, snapshot, levels, from, stopBefore, sizeAfter, nextFile);
            Finished(before, true).outs <= Outputs(merged, n, snapshot, levels, from, stopBefore, sizeAfter,
                                                   nextFile).outs
  {
    hide Dropped;
    if n > i + 1 {
      CutsWhereAsked(merged, i, n - 1, snapshot, levels, from, stopBefore, sizeAfter, nextFile);
    }
  }

  /** CompactionState: finished outputs and the table being built. */
  class CompactionState {
    const firstNumber: nat
    var outs: seq<File>
    var builder: seq<Entry>
    var number: nat
    var size: nat
    var limit: nat

    ghost function Value(): Building
      reads this
    {
      Building(outs, builder, number, size, limit)
    }

    ghost function Written(): seq<Entry>
      reads this
    {
      Contents(outs) + builder
    }

    ghost predicate Valid()
      reads this
    {
      BuildOk(firstNumber, outs, builder, number, limit)
    }

    constructor (nextFile: nat)
      ensures Valid() && Written() == [] && firstNumber == nextFile && Value() == Building([], [], 0, 0, nextFile)
    {
      firstNumber, limit, outs, builder, number, size := nextFile, nextFile, [], [], 0, 0;
    }

    /** OpenCompactionOutputFile when no table is open, then TableBuilder::Add. */
    method Add(e: Entry, sizeAfter: nat)
      requires Valid() && e.key.sequence <= MAX_SEQUENCE
      requires forall x :: x in Written() ==> Less(x.key, e.key)
      modifies this
      ensures Valid() && Written() == old(Written()) + [e] && Value() == WithEntry(old(Value()), e, sizeAfter)
    {
      hide BuildOk, Contents;
      AddOk(firstNumber, outs, builder, number, limit, e);
      assert builder == [] ==> builder + [e] == [e];
      if builder == [] {
        number, limit := limit, limit + 1;
      }
      builder, size := builder + [e], sizeAfter;
    }

    /** FinishCompactionOutputFile, if asked and a table is open. */
    method FinishIf(wanted: bool)
      requires Valid()
      modifies this
      ensures Valid() && Written() == old(Written())
      ensures Value() == Finished(old(Value()), wanted) && (wanted ==> Written() == Contents(outs))
    {
      hide BuildOk, Contents;
      if wanted && builder != [] {
        FinishOk(firstNumber, outs, builder, number, size, limit);
        outs, builder := outs + [FileOf(number, size, builder)], [];
      }
    }
  }

  lemma AppendSorted(es: seq<Entry>, e: Entry)
    requires Sorted(es) && forall x :: x in es ==> Less(x.key, e.key)
    ensures Sorted(es + [e])
  {
  }

  lemma FinishOk(first: nat, outs: seq<File>, builder: seq<Entry>, number: nat, size: nat, limit: nat)
    requires BuildOk(first, outs, builder, number, limit) && builder != []
    ensures var outs' := outs + [FileOf(number, size, builder)];
            BuildOk(first, outs', [], number, limit) && Contents(outs') + [] == Contents(outs) + builder
  {
    var f := FileOf(number, size, builder);
    SortedParts(Contents(outs), builder);
    assert builder[0] in builder && builder[|builder| - 1] in builder;
    assert |builder| > 1 ==> Less(builder[0].key, builder[|builder| - 1].key);
    assert FileOk(f);
    assert (outs + [f])[..|outs|] == outs;
    assert Contents(outs + [f]) + [] == Contents(outs) + builder;
  }

  /** current_user_key and last_sequence_for_key after the first `i` entries. */
  ghost predicate Remembers(merged: seq<Entry>, i: nat, key: Option<UserKey>, last: nat) {
    && i <= |merged|
    && (if i == 0 then key.None? else key == Some(merged[i - 1].key.user) && last == merged[i - 1].key.sequence)
  }

  lemma KeptBefore(merged: seq<Entry>, i: nat, snapshot: nat, levels: seq<seq<File>>, from: nat)
    requires i < |merged| && Sorted(merged) && |levels| == NUM_LEVELS
    ensures forall x :: x in Kept(merged, i, snapshot, levels, from) ==> Less(x.key, merged[i].key)
  {
    KeptFromMerged(merged, i, snapshot, levels, from);
    forall x | x in Kept(merged, i, snapshot, levels, from)
      ensures Less(x.key, merged[i].key)
    {
      var j :| 0 <= j < i && merged[j] == x;
    }
  }

  /** The cursor has not gone past the current user key. */
  ghost predicate Behind(cursor: BaseLevelCursor, key: Option<UserKey>)
    reads cursor, cursor.levelPtrs
  {
    cursor.Valid() && (cursor.lastKey.Some? ==> key.Some? && cursor.lastKey.value <= key.value)
  }

  /** The drop decision of one iteration, and what it remembers for the next. */
  method DecideDrop(merged: seq<Entry>, i: nat, key: Option<UserKey>, last: nat, snapshot: nat, cursor: BaseLevelCursor)
    returns (drop: bool, currentUserKey: Option<UserKey>, lastSequenceForKey: nat)
    requires Sorted(merged) && i < |merged| && Remembers(merged, i, key, last) && Behind(cursor, key)
    modifies cursor`lastKey, cursor.levelPtrs
    ensures Remembers(merged, i + 1, currentUserKey, lastSequenceForKey) && Behind(cursor, currentUserKey)
    ensures drop <==> Dropped(merged, i, snapshot, cursor.levels, cursor.from)
  {
    var e := merged[i];
    assert i > 0 ==> Less(merged[i - 1].key, e.key);
    currentUserKey, lastSequenceForKey := key, last;
    if currentUserKey.None? || currentUserKey.value != e.key.user {
      currentUserKey := Some(e.key.user);
      lastSequenceForKey := MAX_SEQUENCE;
    }
    drop := false;
    if lastSequenceForKey <= snapshot {
      drop := true;
    } else if e.key.kind.Deletion? && e.key.sequence <= snapshot {
      drop := cursor.IsBaseLevelForKey(e.key.user);
    }
    lastSequenceForKey := e.key.sequence;
  }

  /** What one iteration makes of the outputs. */
  ghost function OneEntry(b: Building, e: Entry, stop: bool, size: nat, drop: bool): Building {
    var c := Finished(b, stop);
    if drop then c else var more := WithEntry(c, e, size); Finished(more, more.size >= TARGET_FILE_SIZE)
  }

  lemma DropSkips(merged: seq<Entry>, i: nat, snapshot: nat, levels: seq<seq<File>>, from: nat)
    requires i < |merged| && |levels| == NUM_LEVELS
    ensures Dropped(merged, i, snapshot, levels, from) ==>
              Kept(merged, i + 1, snapshot, levels, from) == Kept(merged, i, snapshot, levels, from)
  {
  }

  lemma OneMoreOutput(merged: seq<Entry>, i: nat, snapshot: nat, levels: seq<seq<File>>, from: nat,
                      stopBefore: nat -> bool, sizeAfter: nat -> nat, nextFile: nat)
    requires i < |merged| && |levels| == NUM_LEVELS
    ensures Outputs(merged, i + 1, snapshot, levels, from, stopBefore, sizeAfter, nextFile) ==
            OneEntry(Outputs(merged, i, snapshot, levels, from, stopBefore, sizeAfter, nextFile), merged[i],
                     stopBefore(i), sizeAfter(i), Dropped(merged, i, snapshot, levels, from))
  {
    hide Dropped, Finished, WithEntry;
  }

  lemma StopThenKeep(b: Building, e: Entry, stop: bool, size: nat)
    ensures OneEntry(b, e, stop, size, false) == OneEntry(Finished(b, stop), e, false, size, false)
    ensures OneEntry(b, e, stop, size, true) == Finished(b, stop)
  {
  }

  /** Hand one kept entry to the outputs, closing the table when it is big. */
  method KeepEntry(compact: CompactionState, merged: seq<Entry>, i: nat, size: nat,
                   ghost snapshot: nat, ghost levels: seq<seq<File>>, ghost from: nat)
    requires i < |merged| && Sorted(merged) && |levels| == NUM_LEVELS && merged[i].key.sequence <= MAX_SEQUENCE
    requires compact.Valid() && compact.Written() == Kept(merged, i, snapshot, levels, from)
    requires !Dropped(merged, i, snapshot, levels, from)
    modifies compact
    ensures compact.Valid() && compact.Written() == Kept(merged, i + 1, snapshot, levels, from)
    ensures compact.Value() == OneEntry(old(compact.Value()), merged[i], false, size, false)
  {
    KeptBefore(merged, i, snapshot, levels, from);
    compact.Add(merged[i], size);
    compact.FinishIf(compact.size >= TARGET_FILE_SIZE);
  }

  /** The loop has looked at `i` entries. */
  ghost predicate Progress(cursor: BaseLevelCursor, compact: CompactionState, merged: seq<Entry>, i: nat,
                           key: Option<UserKey>, last: nat, snapshot: nat)
    reads cursor, cursor.levelPtrs, compact
  {
    && Remembers(merged, i, key, last) && Behind(cursor, key) && compact.Valid()
    && compact.Written() == Kept(merged, i, snapshot, cursor.levels, cursor.from)
  }

  /** One iteration of the loop of DBImpl::DoCompactionWork. */
  method ProcessEntry(cursor: BaseLevelCursor, compact: CompactionState, merged: seq<Entry>, i: nat, stop: bool,
                      size: nat,
                      key: Option<UserKey>, last: nat, snapshot: nat)
    returns (currentUserKey: Option<UserKey>, lastSequenceForKey: nat)
    requires Sorted(merged) && i < |merged| && merged[i].key.sequence <= MAX_SEQUENCE
    requires Progress(cursor, compact, merged, i, key, last, snapshot)
    modifies cursor`lastKey, cursor.levelPtrs, compact
    ensures Progress(cursor, compact, merged, i + 1, currentUserKey, lastSequenceForKey, snapshot)
    ensures var drop := Dropped(merged, i, snapshot, cursor.levels, cursor.from);
            compact.Value() == OneEntry(old(compact.Value()), merged[i], stop, size, drop)
  {
    hide Kept, Dropped, Finished, WithEntry, BuildOk, Contents;
    DropSkips(merged, i, snapshot, cursor.levels, cursor.from);
    StopThenKeep(compact.Value(), merged[i], stop, size);
    compact.FinishIf(stop);
    var drop;
    drop, currentUserKey, lastSequenceForKey := DecideDrop(merged, i, key, last, snapshot, cursor);
    if !drop {
      KeepEntry(compact, merged, i, size, snapshot, cursor.levels, cursor.from);
    }
  }

  lemma NothingYet(merged: seq<Entry>, snapshot: nat, levels: seq<seq<File>>, from: nat,
                   stopBefore: nat -> bool, sizeAfter: nat -> nat, nextFile: nat)
    requires |levels| == NUM_LEVELS
    ensures Kept(merged, 0, snapshot, levels, from) == []
    ensures Outputs(merged, 0, snapshot, levels, from, stopBefore, sizeAfter, nextFile) == Building([], [], 0, 0,
                nextFile)
  {
  }

  lemma BuildParts(first: nat, outs: seq<File>, builder: seq<Entry>, number: nat, limit: nat)
    requires BuildOk(first, outs, builder, number, limit) && builder == []
    ensures first <= limit && NumbersFrom(outs, first, limit) && forall f :: f in outs ==> FileOk(f)
  {
  }

  /** The loop of DBImpl::DoCompactionWork over the merged input.  `stopBefore`
      is what ShouldStopBefore answers at each entry, `sizeAfter` the size of the
      open table after adding it. */
  method DoCompactionWork(levels: seq<seq<File>>, from: nat, merged: seq<Entry>, snapshot: nat,
                          stopBefore: nat -> bool, sizeAfter: nat -> nat, nextFile: nat)
    returns (outs: seq<File>, limit: nat)
    requires LevelsShape(levels) && from < NUM_LEVELS && Sorted(merged)
    requires forall e :: e in merged ==> e.key.sequence <= MAX_SEQUENCE
    ensures forall f :: f in outs ==> FileOk(f)
    ensures Contents(outs) == Kept(merged, |merged|, snapshot, levels, from)
    ensures nextFile <= limit && NumbersFrom(outs, nextFile, limit)
    ensures var all := Outputs(merged, |merged|, snapshot, levels, from, stopBefore, sizeAfter, nextFile);
            outs == Finished(all, true).outs && limit == all.limit
  {
    hide Kept, Dropped, Outputs, OneEntry, BuildOk;
    NothingYet(merged, snapshot, levels, from, stopBefore, sizeAfter, nextFile);
    var cursor := new BaseLevelCursor(levels, from);
    var compact := new CompactionState(nextFile);
    var currentUserKey: Option<UserKey>, lastSequenceForKey: nat := None, MAX_SEQUENCE;
    for i := 0 to |merged|
      invariant fresh(cursor) && fresh(cursor.levelPtrs) && fresh(compact)
      invariant Progress(cursor, compact, merged, i, currentUserKey, lastSequenceForKey, snapshot)
      invariant compact.Value() == Outputs(merged, i, snapshot, levels, from, stopBefore, sizeAfter, nextFile)
    {
      assert merged[i] in merged;
      OneMoreOutput(merged, i, snapshot, levels, from, stopBefore, sizeAfter, nextFile);
      currentUserKey, lastSequenceForKey :=
        ProcessEntry(cursor, compact, merged, i, stopBefore(i), sizeAfter(i), currentUserKey, lastSequenceForKey,
                     snapshot);
    }
    compact.FinishIf(true);
    outs, limit := compact.outs, compact.limit;
    BuildParts(nextFile, outs, compact.builder, compact.number, limit);
  }
}
