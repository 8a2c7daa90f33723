/** DBIter (db/db_iter.cc): a bidirectional cursor over the keys whose newest entry
    at or below a sequence number is a value. */
module DbIterator {
  import opened Format
  import opened Cursor
  import opened Merging

  // ----- what the iterator should show

  ghost function Users(es: seq<Entry>): set<UserKey> {
    set e | e in es :: e.key.user
  }

  /** The sorted map that an iterator at sequence `s` stands over. */
  ghost function Visible(es: seq<Entry>, s: nat): map<UserKey, string> {
    map u | u in Users(es) && AnswerOf(Hit(es, u, s)).Found? :: AnswerOf(Hit(es, u, s)).value
  }

  datatype Bound = Any | AtLeast(key: UserKey) | Above(key: UserKey) | Below(key: UserKey)

  predicate Admits(b: Bound, k: UserKey) {
    match b
    case Any => true
    case AtLeast(x) => k >= x
    case Above(x) => k > x
    case Below(x) => k < x
  }

  /** `r` is the least key of the map within the bound, if there is one. */
  ghost predicate IsFirst(m: map<UserKey, string>, b: Bound, r: Option<UserKey>) {
    match r
    case None => forall k :: k in m ==> !Admits(b, k)
    case Some(x) => x in m && Admits(b, x) && forall k :: k in m && Admits(b, k) ==> x <= k
  }

  ghost predicate IsLast(m: map<UserKey, string>, b: Bound, r: Option<UserKey>) {
    match r
    case None => forall k :: k in m ==> !Admits(b, k)
    case Some(x) => x in m && Admits(b, x) && forall k :: k in m && Admits(b, k) ==> k <= x
  }

  // ----- the same by index

  predicate Seen(es: seq<Entry>, s: nat, i: nat)
    requires i < |es|
  {
    es[i].key.sequence <= s
  }

  /** Entry `i` is the newest visible one of its user key, and a value. */
  ghost predicate Live(es: seq<Entry>, s: nat, i: nat) {
    && i < |es| && Seen(es, s, i) && es[i].key.kind.Value?
    && forall j :: 0 <= j < i && es[j].key.user == es[i].key.user ==> !Seen(es, s, j)
  }

  lemma Ordered(es: seq<Entry>, i: nat, j: nat)
    requires Sorted(es) && i <= j < |es|
    ensures es[i].key.user <= es[j].key.user
    ensures es[i].key.user == es[j].key.user ==> es[i].key.sequence >= es[j].key.sequence
  {
    assert i < j ==> Less(es[i].key, es[j].key);
  }

  lemma LiveIsVisible(es: seq<Entry>, s: nat, i: nat)
    requires Sorted(es) && Live(es, s, i)
    ensures es[i].key.user in Visible(es, s) && Visible(es, s)[es[i].key.user] == es[i].value
  {
    var u := es[i].key.user;
    forall j | 0 <= j < i
      ensures Less(es[j].key, SeekKey(u, s))
    {
      Ordered(es, j, i);
    }
    SeekIndexIs(es, SeekKey(u, s), i);
    assert es[i] in es;
  }

  lemma VisibleIsLive(es: seq<Entry>, s: nat, u: UserKey) returns (i: nat)
    requires Sorted(es) && u in Visible(es, s)
    ensures Live(es, s, i) && es[i].key.user == u
  {
    i := SeekIndex(es, SeekKey(u, s));
  }

  // ----- from indices to keys

  ghost function KeyAt(es: seq<Entry>, r: Option<nat>): Option<UserKey>
    requires r.Some? ==> r.value < |es|
  {
    if r.Some? then Some(es[r.value].key.user) else None
  }

  /** The first live index in the bound holds the first key in the bound. */
  lemma FirstLive(es: seq<Entry>, s: nat, b: Bound, r: Option<nat>)
    requires Sorted(es)
    requires r.Some? ==> Live(es, s, r.value) && Admits(b, es[r.value].key.user)
    requires forall i :: 0 <= i < (if r.Some? then r.value else |es|) && Live(es, s, i) ==> !Admits(b, es[i].key.user)
    ensures IsFirst(Visible(es, s), b, KeyAt(es, r))
  {
    forall k | k in Visible(es, s) && Admits(b, k)
      ensures r.Some? && es[r.value].key.user <= k
    {
      var i := VisibleIsLive(es, s, k);
      Ordered(es, r.value, i);
    }
    if r.Some? {
      LiveIsVisible(es, s, r.value);
    }
  }

  lemma LastLive(es: seq<Entry>, s: nat, b: Bound, r: Option<nat>)
    requires Sorted(es)
    requires r.Some? ==> Live(es, s, r.value) && Admits(b, es[r.value].key.user)
    requires forall i :: (if r.Some? then r.value + 1 else 0) <= i < |es| && Live(es, s, i) ==>
              !Admits(b, es[i].key.user)
    ensures IsLast(Visible(es, s), b, KeyAt(es, r))
  {
    forall k | k in Visible(es, s) && Admits(b, k)
      ensures r.Some? && k <= es[r.value].key.user
    {
      var i := VisibleIsLive(es, s, k);
      Ordered(es, i, r.value);
    }
    if r.Some? {
      LiveIsVisible(es, s, r.value);
    }
  }

  // ----- scanning forward

  /** Not hidden by the key that the scan was told to skip. */
  predicate Wanted(es: seq<Entry>, skip: Option<UserKey>, i: nat)
    requires i < |es|
  {
    skip.None? || es[i].key.user > skip.value
  }

  /** Nothing from `p` on is live and wanted unless it passes the current skip. */
  ghost predicate Scanning(es: seq<Entry>, s: nat, start: nat, skip0: Option<UserKey>, p: nat, skip: Option<UserKey>) {
    && start <= p <= |es|
    && (skip0.Some? ==> skip.Some? && skip0.value <= skip.value)
    && (forall i :: start <= i < p && Live(es, s, i) ==> !Wanted(es, skip0, i))
    && (forall i, j :: 0 <= j < p <= i < |es| && Seen(es, s, j) && es[j].key.user == es[i].key.user ==>
         !Wanted(es, skip, i))
    && (forall i :: p <= i < |es| && !Wanted(es, skip, i) && Live(es, s, i) ==> !Wanted(es, skip0, i))
  }

  /** Where a forward scan may start: what it passed over stays hidden. */
  ghost predicate Startable(es: seq<Entry>, s: nat, start: nat, skip: Option<UserKey>) {
    && Scanning(es, s, start, skip, start, skip)
    && (skip.Some? ==> forall i :: start <= i < |es| && Seen(es, s, i) ==> skip.value <= es[i].key.user)
  }

  /** `r` is the first live index from `start` on that the skipped key does not hide. */
  ghost predicate FirstOf(es: seq<Entry>, s: nat, start: nat, skip: Option<UserKey>, r: Option<nat>) {
    && (r.Some? ==> start <= r.value < |es| && Live(es, s, r.value) && Wanted(es, skip, r.value))
    && forall i :: start <= i < (if r.Some? then r.value else |es|) && Live(es, s, i) ==> !Wanted(es, skip, i)
  }

  lemma ScanPast(es: seq<Entry>, s: nat, start: nat, skip0: Option<UserKey>, p: nat, skip: Option<UserKey>)
    requires Sorted(es) && Scanning(es, s, start, skip0, p, skip) && p < |es|
    requires !Seen(es, s, p) || !Wanted(es, skip, p)
    ensures Scanning(es, s, start, skip0, p + 1, skip)
  {
  }

  lemma ScanDeletion(es: seq<Entry>, s: nat, start: nat, skip0: Option<UserKey>, p: nat, skip: Option<UserKey>)
    requires Sorted(es) && Scanning(es, s, start, skip0, p, skip) && p < |es|
    requires Seen(es, s, p) && es[p].key.kind.Deletion? && (skip0.Some? ==> skip0.value <= es[p].key.user)
    ensures Scanning(es, s, start, skip0, p + 1, Some(es[p].key.user))
  {
    var u := es[p].key.user;
    forall i | p + 1 <= i < |es| && es[i].key.user <= u
      ensures !Live(es, s, i)
    {
      Ordered(es, p, i);
    }
    forall i, j | 0 <= j < p + 1 <= i < |es| && Seen(es, s, j) && es[j].key.user == es[i].key.user
      ensures !Wanted(es, Some(u), i)
    {
      Ordered(es, j, p);
    }
  }

  lemma ScanStops(es: seq<Entry>, s: nat, start: nat, skip0: Option<UserKey>, p: nat, skip: Option<UserKey>)
    requires Sorted(es) && Scanning(es, s, start, skip0, p, skip) && p < |es|
    requires Seen(es, s, p) && es[p].key.kind.Value? && Wanted(es, skip, p)
    ensures Live(es, s, p) && Wanted(es, skip0, p)
  {
  }

  // ----- scanning backward

  /** The inner iterator is before every visible entry of `k` and of later keys. */
  ghost predicate BeforeKey(es: seq<Entry>, s: nat, it: Option<nat>, k: UserKey) {
    var n := if it.Some? then it.value + 1 else 0;
    && n <= |es|
    && (it.Some? ==> es[n - 1].key.user < k)
    && (0 < n < |es| ==> es[n - 1].key.user < es[n].key.user)
    && forall j :: n <= j < |es| && Seen(es, s, j) ==> es[j].key.user >= k
  }

  /** Entries `n..limit` have been passed; `q` is the candidate, if any. */
  ghost predicate Backing(es: seq<Entry>, s: nat, limit: nat, n: nat, q: Option<nat>) {
    && n <= limit <= |es|
    && (forall i :: n <= i < limit && Live(es, s, i) ==> q == Some(i))
    && (q.Some? ==> n <= q.value < limit && Seen(es, s, q.value) && es[q.value].key.kind.Value?
                    && forall j :: n <= j < q.value ==> !Seen(es, s, j))
  }

  /** What the backward scan has saved of its candidate. */
  ghost predicate Saved(es: seq<Entry>, q: Option<nat>, kind: ValueType, key: Option<UserKey>, value: string) {
    && (q.Some? <==> kind.Value?)
    && (q.Some? ==> q.value < |es| && key == Some(es[q.value].key.user) && value == es[q.value].value)
  }

  /** `r` is the last live index below `limit`, if there is one. */
  ghost predicate LastOf(es: seq<Entry>, s: nat, limit: nat, r: Option<nat>) {
    && limit <= |es|
    && (r.Some? ==> r.value < limit && Live(es, s, r.value))
    && forall i :: (if r.Some? then r.value + 1 else 0) <= i < limit ==> !Live(es, s, i)
  }

  lemma BackPast(es: seq<Entry>, s: nat, limit: nat, n: nat, q: Option<nat>)
    requires Sorted(es) && Backing(es, s, limit, n, q) && n > 0
    requires Seen(es, s, n - 1) ==> q.None? || es[n - 1].key.user >= es[q.value].key.user
    ensures Backing(es, s, limit, n - 1,
                    if Seen(es, s, n - 1) then (if es[n - 1].key.kind.Value? then Some(n - 1) else None) else q)
  {
    if q.Some? {
      Ordered(es, n - 1, q.value);
    }
  }

  lemma BackStops(es: seq<Entry>, s: nat, limit: nat, n: nat, q: nat)
    requires Sorted(es) && Backing(es, s, limit, n, Some(q))
    requires n > 0 ==> Seen(es, s, n - 1) && es[n - 1].key.user < es[q].key.user
    ensures LastOf(es, s, limit, Some(q))
    ensures BeforeKey(es, s, BeforeIndex(n), es[q].key.user)
    ensures es[q].key.user in Visible(es, s) && Visible(es, s)[es[q].key.user] == es[q].value
  {
    hide Visible, Less;
    forall j | 0 <= j < n
      ensures es[j].key.user < es[q].key.user
    {
      Ordered(es, j, n - 1);
    }
    if 0 < n {
      Ordered(es, n - 1, n);
    }
    forall j | n <= j < |es| && Seen(es, s, j)
      ensures es[j].key.user >= es[q].key.user
    {
      if q <= j {
        Ordered(es, q, j);
      }
    }
    LiveIsVisible(es, s, q);
  }

  // ----- the iterator

  datatype Call = Seek(target: UserKey) | SeekToFirst | SeekToLast | Next | Prev

  class DBIter {
    const entries: seq<Entry>
    const sequence: nat
    var it: Option<nat>
    var direction: Direction
    var valid: bool
    var savedKey: Option<UserKey>
    var savedValue: string

    /** Going forward the inner iterator is on the current entry; going backward it
        is before the entries of the current key, which is saved. */
    ghost predicate Ok()
      reads this
    {
      && Sorted(entries) && (it.Some? ==> it.value < |entries|)
      && (valid && direction.Forward? ==> it.Some? && Live(entries, sequence, it.value))
      && (valid && direction.Reverse? ==>
            && savedKey.Some? && savedKey.value in Map() && savedValue == Map()[savedKey.value]
            && BeforeKey(entries, sequence, it, savedKey.value))
    }

    ghost function Map(): map<UserKey, string> {
      Visible(entries, sequence)
    }

    /** The current key, if the iterator is valid. */
    ghost function Pos(): Option<UserKey>
      requires Ok()
      reads this
    {
      if !valid then None else if direction.Forward? then Some(entries[it.value].key.user) else savedKey
    }

    constructor (entries: seq<Entry>, sequence: nat)
      requires Sorted(entries)
      ensures Ok() && Pos() == None && this.entries == entries && this.sequence == sequence
    {
      this.entries, this.sequence := entries, sequence;
      it, direction, valid, savedKey, savedValue := None, Forward, false, None, "";
    }

    method Key() returns (k: UserKey)
      requires Ok() && valid
      ensures Pos() == Some(k)
    {
      k := if direction.Forward? then entries[it.value].key.user else savedKey.value;
    }

    method Value() returns (v: string)
      requires Ok() && valid
      ensures Pos().Some? && Pos().value in Map() && v == Map()[Pos().value]
    {
      if direction.Forward? {
        LiveIsVisible(entries, sequence, it.value);
      }
      v := if direction.Forward? then entries[it.value].value else savedValue;
    }

    /** FindNextUserEntry: the first live entry from here on that is not hidden by
        the saved key. */
    method FindNextUserEntry(skipFirst: bool)
      requires Sorted(entries) && it.Some? && it.value < |entries| && direction.Forward?
               && (skipFirst ==> savedKey.Some?)
      requires Startable(entries, sequence, it.value, if skipFirst then savedKey else None)
      modifies this
      ensures Ok() && (valid ==> direction.Forward? && it.Some?)
      ensures FirstOf(entries, sequence, old(it).value, if skipFirst then old(savedKey) else None,
                      if valid then it else None)
    {
      var skipping := skipFirst;
      ghost var start, skip0 := it.value, if skipFirst then savedKey else None;
      while it.Some?
        invariant direction.Forward? && (skipping ==> savedKey.Some?)
        invariant Scanning(entries, sequence, start, skip0,
                           if it.Some? then it.value else |entries|, if skipping then savedKey else None)
        invariant it.Some? ==> it.value < |entries|
        decreases if it.Some? then |entries| - it.value else 0
      {
        var e := entries[it.value];
        if e.key.sequence <= sequence && e.key.kind.Deletion? {
          ScanDeletion(entries, sequence, start, skip0, it.value, if skipping then savedKey else None);
          savedKey := Some(e.key.user);
          skipping := true;
        } else if e.key.sequence <= sequence && !(skipping && e.key.user <= savedKey.value) {
          ScanStops(entries, sequence, start, skip0, it.value, if skipping then savedKey else None);
          valid := true;
          savedKey := None;
          return;
        } else {
          ScanPast(entries, sequence, start, skip0, it.value, if skipping then savedKey else None);
        }
        it := After(entries, it.value);
      }
      savedKey := None;
      valid := false;
    }

    /** FindPrevUserEntry: the last live entry up to here; the scan has to pass all
        visible entries of its key to know which is the newest. */
    method FindPrevUserEntry() returns (ghost q: Option<nat>)
      requires Sorted(entries) && (it.Some? ==> it.value < |entries|) && direction.Reverse?
      requires it.Some? && it.value + 1 < |entries| ==> entries[it.value].key.user < entries[it.value + 1].key.user
      modifies this
      ensures LastOf(entries, sequence, if old(it).Some? then old(it).value + 1 else 0, q)
      ensures Ok() && Pos() == KeyAt(entries, q)
    {
      var kind := Deletion;
      q := None;
      ghost var limit: nat := if it.Some? then it.value + 1 else 0;
      ghost var n: nat := limit;
      while it.Some?
        invariant it == BeforeIndex(n) && Backing(entries, sequence, limit, n, q) && direction.Reverse?
        invariant Saved(entries, q, kind, savedKey, savedValue)
        decreases n
      {
        var e := entries[it.value];
        if e.key.sequence <= sequence && kind.Value? && e.key.user < savedKey.value {
          break;
        }
        BackPast(entries, sequence, limit, n, q);
        if e.key.sequence <= sequence {
          kind := e.key.kind;
          if kind.Deletion? {
            savedKey, savedValue := None, "";
            q := None;
          } else {
            savedKey, savedValue := Some(e.key.user), e.value;
            q := Some(n - 1);
          }
        }
        it := BeforeIndex(it.value);
        n := n - 1;
      }
      if kind.Deletion? {
        valid, savedKey, savedValue, direction := false, None, "", Forward;
      } else {
        BackStops(entries, sequence, limit, n, q.value);
        ShowSaved();
      }
    }

    method ShowSaved()
      requires Sorted(entries) && (it.Some? ==> it.value < |entries|) && direction.Reverse?
      requires savedKey.Some? && savedKey.value in Map() && savedValue == Map()[savedKey.value]
      requires BeforeKey(entries, sequence, it, savedKey.value)
      modifies this`valid
      ensures Ok() && Pos() == savedKey
    {
      valid := true;
    }

    /** FindNextUserEntry, if there is an entry to start from. */
    method Resume(skipFirst: bool)
      requires Sorted(entries) && (it.Some? ==> it.value < |entries|) && direction.Forward?
               && (skipFirst ==> savedKey.Some?)
      requires Startable(entries, sequence, if it.Some? then it.value else |entries|,
                         if skipFirst then savedKey else None)
      modifies this
      ensures Ok() && (valid ==> direction.Forward? && it.Some?)
      ensures FirstOf(entries, sequence, if old(it).Some? then old(it).value else |entries|,
                      if skipFirst then old(savedKey) else None, if valid then it else None)
    {
      if it.Some? {
        FindNextUserEntry(skipFirst);
      } else {
        valid := false;
        savedKey := None;
      }
    }

    method SeekToFirst()
      requires Ok()
      modifies this
      ensures Ok() && IsFirst(Map(), Any, Pos())
    {
      direction := Forward;
      savedValue := "";
      it := First(entries);
      Resume(false);
      FirstLive(entries, sequence, Any, if valid then it else None);
    }

    method Seek(target: UserKey)
      requires Ok()
      modifies this
      ensures Ok() && IsFirst(Map(), AtLeast(target), Pos())
    {
      direction := Forward;
      savedValue := "";
      savedKey := None;
      it := SeekTo(entries, SeekKey(target, sequence));
      SeekStarts(entries, sequence, target);
      Resume(false);
      FirstLive(entries, sequence, AtLeast(target), if valid then it else None);
    }

    method SeekToLast()
      requires Ok()
      modifies this
      ensures Ok() && IsLast(Map(), Any, Pos())
    {
      direction := Reverse;
      savedValue := "";
      it := Last(entries);
      ghost var q := FindPrevUserEntry();
      LastLive(entries, sequence, Any, q);
    }

    method Next()
      requires Ok() && valid
      modifies this
      ensures Ok() && old(Pos()).Some? && IsFirst(Map(), Above(old(Pos()).value), Pos())
    {
      hide Startable, FirstOf, IsFirst, Live, BeforeKey, Visible, Sorted;
      ghost var k, start := Pos().value, 0;
      if direction.Reverse? {
        direction := Forward;
        start := if it.Some? then it.value + 1 else 0;
        NextStarts(entries, sequence, it, k);
        it := if it.None? then First(entries) else After(entries, it.value);
      } else {
        start := it.value;
        savedKey := Some(entries[it.value].key.user);
        CurrentStarts(entries, sequence, it.value);
      }
      Resume(true);
      NextIsFirst(entries, sequence, start, k, if valid then it else None);
    }

    /** Back to the last entry of an earlier user key. */
    method LeaveKey()
      requires Sorted(entries) && it.Some? && it.value < |entries| && savedKey == Some(entries[it.value].key.user)
      modifies this`it
      ensures it.Some? ==> it.value < old(it).value && entries[it.value].key.user < savedKey.value
      ensures forall j :: (if it.Some? then it.value + 1 else 0) <= j < |entries| ==>
               entries[j].key.user >= savedKey.value
    {
      forall j | it.value <= j < |entries|
        ensures entries[j].key.user >= savedKey.value
      {
        Ordered(entries, it.value, j);
      }
      ghost var n: nat := it.value;
      it := BeforeIndex(it.value);
      while it.Some? && entries[it.value].key.user >= savedKey.value
        invariant it == BeforeIndex(n) && n <= old(it).value
        invariant forall j :: n <= j < |entries| ==> entries[j].key.user >= savedKey.value
        decreases n
      {
        n := n - 1;
        it := BeforeIndex(it.value);
      }
    }

    method Prev()
      requires Ok() && valid
      modifies this
      ensures Ok() && old(Pos()).Some? && IsLast(Map(), Below(old(Pos()).value), Pos())
    {
      hide Visible, Sorted, IsLast, Live, LastOf;
      ghost var k := Pos().value;
      if direction.Forward? {
        savedKey := Some(entries[it.value].key.user);
        LeaveKey();
        if it.None? {
          valid, savedKey, savedValue := false, None, "";
          LastLive(entries, sequence, Below(k), None);
          return;
        }
        direction := Reverse;
      }
      assert BeforeKey(entries, sequence, it, k);
      ghost var from := it;
      ghost var q := FindPrevUserEntry();
      PrevIsLast(entries, sequence, from, k, q);
    }
  }

  lemma NextIsFirst(es: seq<Entry>, s: nat, start: nat, k: UserKey, r: Option<nat>)
    requires Sorted(es) && start <= |es| && FirstOf(es, s, start, Some(k), r)
    requires forall j :: 0 <= j < start ==> es[j].key.user <= k
    ensures IsFirst(Visible(es, s), Above(k), KeyAt(es, r))
  {
    FirstLive(es, s, Above(k), r);
  }

  lemma PrevIsLast(es: seq<Entry>, s: nat, it: Option<nat>, k: UserKey, q: Option<nat>)
    requires Sorted(es) && BeforeKey(es, s, it, k) && LastOf(es, s, if it.Some? then it.value + 1 else 0, q)
    ensures IsLast(Visible(es, s), Below(k), KeyAt(es, q))
  {
    if q.Some? {
      Ordered(es, q.value, it.value);
    }
    LastLive(es, s, Below(k), q);
  }

  // ----- where forward scans start

  lemma SeekStarts(es: seq<Entry>, s: nat, target: UserKey)
    requires Sorted(es)
    ensures var i := SeekIndex(es, SeekKey(target, s));
            && Startable(es, s, i, None)
            && (forall j :: i <= j < |es| ==> es[j].key.user >= target)
            && (forall j :: 0 <= j < i && Live(es, s, j) ==> es[j].key.user < target)
  {
    var i := SeekIndex(es, SeekKey(target, s));
    forall j | i <= j < |es|
      ensures es[j].key.user >= target
    {
      Ordered(es, i, j);
    }
    forall j, n | 0 <= j < i <= n < |es| && es[j].key.user == es[n].key.user
      ensures !Seen(es, s, j)
    {
      assert Less(es[j].key, SeekKey(target, s));
    }
  }

  lemma CurrentStarts(es: seq<Entry>, s: nat, i: nat)
    requires Sorted(es) && i < |es|
    ensures Startable(es, s, i, Some(es[i].key.user))
    ensures forall j :: 0 <= j < i ==> es[j].key.user <= es[i].key.user
  {
    forall j | i <= j < |es|
      ensures es[i].key.user <= es[j].key.user
    {
      Ordered(es, i, j);
    }
    forall j | 0 <= j < i
      ensures es[j].key.user <= es[i].key.user
    {
      Ordered(es, j, i);
    }
  }

  lemma NextStarts(es: seq<Entry>, s: nat, it: Option<nat>, k: UserKey)
    requires Sorted(es) && BeforeKey(es, s, it, k)
    ensures var n := if it.Some? then it.value + 1 else 0;
            && n <= |es| && Startable(es, s, n, Some(k))
            && (forall j :: 0 <= j < n ==> es[j].key.user <= k)
  {
    var n := if it.Some? then it.value + 1 else 0;
    forall j | 0 <= j < n
      ensures es[j].key.user <= k
    {
      Ordered(es, j, n - 1);
    }
  }

  // ----- any sequence of calls

  /** One call on an abstract cursor over the map.  A caller that finds the iterator
      not valid does not move it. */
  ghost predicate IsStep(m: map<UserKey, string>, from: Option<UserKey>, c: Call, to: Option<UserKey>) {
    match c
    case Seek(target) => IsFirst(m, AtLeast(target), to)
    case SeekToFirst => IsFirst(m, Any, to)
    case SeekToLast => IsLast(m, Any, to)
    case Next => if from.None? then to == None else IsFirst(m, Above(from.value), to)
    case Prev => if from.None? then to == None else IsLast(m, Below(from.value), to)
  }

  /** The abstract cursor is a function of its position and the call. */
  lemma StepIsUnique(m: map<UserKey, string>, from: Option<UserKey>, c: Call, a: Option<UserKey>, b: Option<UserKey>)
    requires IsStep(m, from, c, a) && IsStep(m, from, c, b)
    ensures a == b
  {
  }

  ghost function KeyOf(r: Option<(UserKey, string)>): Option<UserKey> {
    if r.Some? then Some(r.value.0) else None
  }

  ghost function Now(from: Option<UserKey>, trace: seq<Option<(UserKey, string)>>): Option<UserKey> {
    if trace == [] then from else KeyOf(trace[|trace| - 1])
  }

  /** `r` shows the key and its value in the map. */
  ghost predicate Shows(m: map<UserKey, string>, r: Option<(UserKey, string)>) {
    r.Some? ==> r.value.0 in m && r.value.1 == m[r.value.0]
  }

  /** What the caller saw after each call is what the abstract cursor shows. */
  ghost predicate IsTrace(m: map<UserKey, string>, from: Option<UserKey>, calls: seq<Call>,
                          trace: seq<Option<(UserKey, string)>>) {
    && |trace| == |calls|
    && (calls != [] ==>
          var n := |calls| - 1;
          IsTrace(m, from, calls[..n], trace[..n]) && IsStep(m, Now(from, trace[..n]), calls[n], KeyOf(trace[n]))
              && Shows(m, trace[n]))
  }

  lemma TraceStarts(m: map<UserKey, string>, from: Option<UserKey>)
    ensures IsTrace(m, from, [], []) && Now(from, []) == from
  {
  }

  lemma TraceGrows(m: map<UserKey, string>, from: Option<UserKey>, calls: seq<Call>,
                   trace: seq<Option<(UserKey, string)>>,
                   c: Call, r: Option<(UserKey, string)>)
    requires IsTrace(m, from, calls, trace) && IsStep(m, Now(from, trace), c, KeyOf(r)) && Shows(m, r)
    ensures IsTrace(m, from, calls + [c], trace + [r])
  {
    assert (calls + [c])[..|calls|] == calls && (trace + [r])[..|trace|] == trace;
  }

  method Apply(iter: DBIter, c: Call)
    requires iter.Ok()
    modifies iter
    ensures iter.Ok() && IsStep(iter.Map(), old(iter.Pos()), c, iter.Pos())
  {
    match c {
      case Seek(target) => iter.Seek(target);
      case SeekToFirst => iter.SeekToFirst();
      case SeekToLast => iter.SeekToLast();
      case Next =>
        if iter.valid {
          iter.Next();
        }
      case Prev =>
        if iter.valid {
          iter.Prev();
        }
    }
  }

  method Look(iter: DBIter) returns (r: Option<(UserKey, string)>)
    requires iter.Ok()
    ensures KeyOf(r) == iter.Pos()
    ensures Shows(iter.Map(), r)
  {
    if !iter.valid {
      return None;
    }
    var k := iter.Key();
    var v := iter.Value();
    r := Some((k, v));
  }

  method ApplyAndLook(iter: DBIter, ghost from: Option<UserKey>, ghost calls: seq<Call>,
                      trace: seq<Option<(UserKey, string)>>, c: Call)
    returns (trace': seq<Option<(UserKey, string)>>)
    requires iter.Ok() && iter.Pos() == Now(from, trace) && IsTrace(iter.Map(), from, calls, trace)
    modifies iter
    ensures iter.Ok() && iter.Pos() == Now(from, trace') && IsTrace(iter.Map(), from, calls + [c], trace')
  {
    Apply(iter, c);
    var r := Look(iter);
    TraceGrows(iter.Map(), from, calls, trace, c, r);
    trace' := trace + [r];
  }

  /** Every sequence of calls, with direction changes anywhere, shows what a cursor
      over the visible map shows. */
  method Drive(iter: DBIter, calls: seq<Call>) returns (trace: seq<Option<(UserKey, string)>>)
    requires iter.Ok()
    modifies iter
    ensures iter.Ok() && IsTrace(iter.Map(), old(iter.Pos()), calls, trace)
  {
    hide IsTrace, Now, Visible;
    trace := [];
    ghost var from, m := iter.Pos(), iter.Map();
    TraceStarts(m, from);
    assert calls[..0] == [];
    for i := 0 to |calls|
      invariant iter.Ok() && iter.Pos() == Now(from, trace)
      invariant IsTrace(m, from, calls[..i], trace)
    {
      assert calls[..i + 1] == calls[..i] + [calls[i]];
      trace := ApplyAndLook(iter, from, calls[..i], trace, calls[i]);
    }
    assert calls[..|calls|] == calls;
  }
}
