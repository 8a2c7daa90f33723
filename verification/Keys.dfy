/** Keys as byte strings (util/comparator.cc, db/dbformat.cc): the bytewise order,
    internal keys, and the shortened keys of an index block. */
module Keys {
  import opened Format
  import opened Bytes
  import opened Coding
  import opened Block
  import opened BlockIter

  // ----- the bytewise comparator

  /** Slice::compare: memcmp, and a prefix comes first. */
  predicate BytesLess(a: seq<Byte>, b: seq<Byte>) {
    b != [] && (a == [] || a[0] < b[0] || (a[0] == b[0] && BytesLess(a[1..], b[1..])))
  }

  lemma {:induction false} BytesTransitive(a: seq<Byte>, b: seq<Byte>, c: seq<Byte>)
    requires BytesLess(a, b) && BytesLess(b, c)
    ensures BytesLess(a, c)
    decreases |a|
  {
    if a != [] && a[0] == b[0] == c[0] {
      BytesTransitive(a[1..], b[1..], c[1..]);
    }
  }

  lemma {:induction false} BytesTotal(a: seq<Byte>, b: seq<Byte>)
    ensures a == b || BytesLess(a, b) || BytesLess(b, a)
    ensures !(BytesLess(a, b) && BytesLess(b, a)) && !BytesLess(a, a)
    decreases |a|
  {
    if a != [] && b != [] {
      BytesTotal(a[1..], b[1..]);
      assert a == [a[0]] + a[1..] && b == [b[0]] + b[1..];
    }
    if a != [] {
      BytesTotal(a[1..], a[1..]);
    }
  }

  lemma BytesIsOrder()
    ensures IsOrder(BytesLess)
  {
    hide BytesLess;
    forall a, b, c | BytesLess(a, b) && BytesLess(b, c)
      ensures BytesLess(a, c)
    {
      BytesTransitive(a, b, c);
    }
    forall a, b, c | BytesLess(a, c)
      ensures BytesLess(a, b) || BytesLess(b, c)
    {
      BytesTotal(a, b);
      if BytesLess(b, a) {
        BytesTransitive(b, a, c);
      }
    }
  }

  /** The first byte that differs decides. */
  lemma {:induction false} DecidedAt(a: seq<Byte>, b: seq<Byte>, n: nat)
    requires n < |a| && n <= |b| && a[..n] == b[..n]
    ensures n < |b| && a[n] < b[n] ==> BytesLess(a, b)
    ensures n < |b| && a[n] > b[n] ==> !BytesLess(a, b)
    ensures n == |b| ==> !BytesLess(a, b) && BytesLess(b, a)
    decreases n
  {
    if n > 0 {
      assert a[0] == a[..n][0] == b[..n][0] == b[0];
      assert a[1..][..n - 1] == a[..n][1..] && b[1..][..n - 1] == b[..n][1..];
      DecidedAt(a[1..], b[1..], n - 1);
    }
  }

  /** The prefix of `a` of length `n`, with its next byte incremented. */
  function Bumped(a: seq<Byte>, n: nat): (r: seq<Byte>)
    requires n < |a| && a[n] < 255
    ensures |r| == n + 1
  {
    a[..n] + [a[n] + 1]
  }

  lemma BumpedLater(a: seq<Byte>, n: nat)
    requires n < |a| && a[n] < 255
    ensures BytesLess(a, Bumped(a, n))
  {
    DecidedAt(a, Bumped(a, n), n);
  }

  /** FindShortestSeparator. */
  function Separator(start: seq<Byte>, limit: seq<Byte>): seq<Byte> {
    var n := Common(start, limit);
    if n < |start| && n < |limit| && start[n] < 255 && start[n] + 1 < limit[n] then Bumped(start, n) else start
  }

  /** Between the two keys, never longer, and a key that is not before the limit is
      left alone. */
  lemma SeparatorBetween(start: seq<Byte>, limit: seq<Byte>)
    ensures var r := Separator(start, limit);
            && |r| <= |start| && (r != start ==> BytesLess(start, r) && BytesLess(r, limit))
            && (BytesLess(start, limit) ==> BytesLess(r, limit))
  {
    hide Common;
    var n, r := Common(start, limit), Separator(start, limit);
    if r != start {
      BumpedLater(start, n);
      assert r[..n] == start[..n] == limit[..n];
      DecidedAt(r, limit, n);
    }
  }

  /** Where the first different bytes leave room between them, the key is shortened, and
      no key from `start` on and before `limit` is shorter; elsewhere it stays. */
  lemma SeparatorShortest(start: seq<Byte>, limit: seq<Byte>, n: nat)
    requires n <= |start| && n <= |limit| && start[..n] == limit[..n]
    requires n < |start| && n < |limit| ==> start[n] != limit[n]
    ensures var room := n < |start| && n < |limit| && NatOf(start[n]) + 1 < NatOf(limit[n]);
            && (room ==> Separator(start, limit) == start[..n] + [start[n] + 1])
            && (room ==> forall k :: !BytesLess(k, start) && BytesLess(k, limit) ==> |k| >= n + 1)
            && (!room ==> Separator(start, limit) == start)
  {
    hide Common;
    CommonIs(start, limit, n);
    if n < |start| && n < |limit| {
      RoomIs(start[n], limit[n]);
      forall k | !BytesLess(k, start) && BytesLess(k, limit)
        ensures |k| >= n + 1
      {
        if |k| <= n {
          ShorterIsOutside(k, start, limit, n);
        }
      }
    }
  }

  lemma RoomIs(a: Byte, b: Byte)
    ensures NatOf(a) + 1 < NatOf(b) <==> a < 255 && a + 1 < b
  {
    hide NatOf;
    RawOrder(a, b);
    RawOrder(a, 255);
    RawNext(a);
    RawOrder(a + 1, b);
  }

  lemma RawOrder(a: Byte, b: Byte)
    ensures a < b <==> NatOf(a) < NatOf(b)
    ensures NatOf(255) == 255 && NatOf(b) <= 255
  {
  }

  lemma RawNext(a: Byte)
    ensures a < 255 ==> NatOf(a + 1) == NatOf(a) + 1
  {
  }

  lemma {:induction false} CommonIs(a: seq<Byte>, b: seq<Byte>, n: nat)
    requires n <= |a| && n <= |b| && a[..n] == b[..n] && (n < |a| && n < |b| ==> a[n] != b[n])
    ensures Common(a, b) == n
  {
    if n > 0 {
      assert a[0] == a[..n][0] == b[..n][0] == b[0];
      assert a[1..][..n - 1] == a[..n][1..] && b[1..][..n - 1] == b[..n][1..];
      CommonIs(a[1..], b[1..], n - 1);
    }
  }

  /** A key no longer than the common prefix of two keys is not between them. */
  lemma {:induction false} ShorterIsOutside(k: seq<Byte>, start: seq<Byte>, limit: seq<Byte>, n: nat)
    requires n < |start| && n < |limit| && start[..n] == limit[..n] && |k| <= n
    ensures BytesLess(k, start) || !BytesLess(k, limit)
  {
    if k != [] {
      assert start[0] == start[..n][0] == limit[..n][0] == limit[0];
      assert start[1..][..n - 1] == start[..n][1..] && limit[1..][..n - 1] == limit[..n][1..];
      ShorterIsOutside(k[1..], start[1..], limit[1..], n - 1);
    }
  }

  /** The length of the common prefix. */
  method DiffIndex(start: seq<Byte>, limit: seq<Byte>) returns (diff: nat)
    ensures diff == Common(start, limit)
  {
    diff := 0;
    while diff < |start| && diff < |limit| && start[diff] == limit[diff]
      invariant diff <= |start| && diff <= |limit|
      invariant Common(start, limit) == diff + Common(start[diff..], limit[diff..])
    {
      assert start[diff..][1..] == start[diff + 1..] && limit[diff..][1..] == limit[diff + 1..];
      diff := diff + 1;
    }
  }

  method FindShortestSeparator(start: seq<Byte>, limit: seq<Byte>) returns (r: seq<Byte>)
    ensures r == Separator(start, limit)
  {
    hide Common;
    var diff := DiffIndex(start, limit);
    r := start;
    if diff < |start| && diff < |limit| {
      if start[diff] < 255 && start[diff] + 1 < limit[diff] {
        r := start[..diff] + [start[diff] + 1];
      }
    }
  }

  /** FindShortSuccessor: the first byte that can be incremented. */
  function Successor(key: seq<Byte>, i: nat): seq<Byte>
    requires i <= |key|
    decreases |key| - i
  {
    if i == |key| then key else if key[i] < 255 then Bumped(key, i) else Successor(key, i + 1)
  }

  lemma {:induction false} SuccessorLater(key: seq<Byte>, i: nat)
    requires i <= |key|
    ensures var r := Successor(key, i); |r| <= |key| && (r != key ==> BytesLess(key, r))
    ensures Successor(key, i) == key ==> forall j :: i <= j < |key| ==> key[j] == 255
    decreases |key| - i
  {
    if i < |key| {
      if key[i] < 255 {
        BumpedLater(key, i);
        BytesTotal(key, key);
      } else {
        SuccessorLater(key, i + 1);
      }
    }
  }

  /** No key that is not before this one is shorter than its successor. */
  lemma {:induction false} SuccessorShortest(key: seq<Byte>, i: nat, k: seq<Byte>)
    requires i <= |key| && (forall j :: 0 <= j < i ==> key[j] == 255) && !BytesLess(k, key)
    ensures |k| >= |Successor(key, i)|
    decreases |key| - i
  {
    hide BytesLess;
    if i < |key| && !(key[i] < 255) {
      SuccessorShortest(key, i + 1, k);
    } else {
      var n := if i < |key| then i + 1 else i;
      if |k| < n {
        AllOnesPrefix(k, key, n);
      }
    }
  }

  /** Nothing shorter than a run of 0xff bytes reaches what starts with them. */
  lemma {:induction false} AllOnesPrefix(k: seq<Byte>, key: seq<Byte>, n: nat)
    requires n <= |key| && |k| < n && forall j :: 0 <= j < n - 1 ==> key[j] == 255
    ensures BytesLess(k, key)
  {
    if k != [] {
      AllOnesPrefix(k[1..], key[1..], n - 1);
    }
  }

  method FindShortSuccessor(key: seq<Byte>) returns (r: seq<Byte>)
    ensures r == Successor(key, 0)
  {
    for i := 0 to |key|
      invariant Successor(key, i) == Successor(key, 0)
    {
      if key[i] != 255 {
        return key[..i] + [key[i] + 1];
      }
    }
    r := key;
  }

  // ----- internal keys

  /** The tag that a seek uses: the largest sequence number, and kValueTypeForSeek. */
  const MAX_TAG: nat := MAX_SEQUENCE * 256 + 1

  function Fixed64(n: nat): (r: seq<Byte>)
    requires n < LIMIT64
    ensures |r| == 8
  {
    Fixed(n % LIMIT32) + Fixed(n / LIMIT32)
  }

  function GetFixed64(b: seq<Byte>): nat
    requires |b| == 8
  {
    GetFixed(b[..4]) + LIMIT32 * GetFixed(b[4..])
  }

  lemma Fixed64RoundTrip(n: nat)
    requires n < LIMIT64
    ensures GetFixed64(Fixed64(n)) == n
  {
    hide Fixed, GetFixed;
    FixedRoundTrip(n % LIMIT32);
    FixedRoundTrip(n / LIMIT32);
    assert Fixed64(n)[..4] == Fixed(n % LIMIT32) && Fixed64(n)[4..] == Fixed(n / LIMIT32);
  }

  /** A user key and eight bytes of tag. */
  function Internal(user: seq<Byte>, tag: nat): (k: seq<Byte>)
    requires tag < LIMIT64
    ensures |k| == |user| + 8
  {
    user + Fixed64(tag)
  }

  /** ExtractUserKey; shorter strings, which are no internal keys, count as empty. */
  function UserOf(k: seq<Byte>): seq<Byte> {
    if |k| < 8 then [] else k[..|k| - 8]
  }

  function TagOf(k: seq<Byte>): nat {
    if |k| < 8 then 0 else GetFixed64(k[|k| - 8..])
  }

  lemma InternalParts(user: seq<Byte>, tag: nat)
    requires tag < LIMIT64
    ensures UserOf(Internal(user, tag)) == user && TagOf(Internal(user, tag)) == tag
  {
    hide Fixed64, GetFixed64;
    var k := Internal(user, tag);
    assert k[|k| - 8..] == Fixed64(tag) && k[..|k| - 8] == user;
    Fixed64RoundTrip(tag);
  }

  /** InternalKeyComparator: user key ascending, tag descending. */
  predicate InternalLess(a: seq<Byte>, b: seq<Byte>) {
    BytesLess(UserOf(a), UserOf(b)) || (UserOf(a) == UserOf(b) && TagOf(a) > TagOf(b))
  }

  /** Newer versions of a user key come first, and user keys are in byte order. */
  lemma InternalOrderIs(u: seq<Byte>, s: nat, v: seq<Byte>, t: nat)
    requires s < LIMIT64 && t < LIMIT64
    ensures InternalLess(Internal(u, s), Internal(v, t)) <==> BytesLess(u, v) || (u == v && s > t)
  {
    hide BytesLess;
    InternalParts(u, s);
    InternalParts(v, t);
  }

  lemma InternalIsOrder()
    ensures IsOrder(InternalLess)
  {
    hide UserOf, TagOf, BytesLess;
    forall a, b, c | InternalLess(a, b) && InternalLess(b, c)
      ensures InternalLess(a, c)
    {
      if BytesLess(UserOf(a), UserOf(b)) && BytesLess(UserOf(b), UserOf(c)) {
        BytesTransitive(UserOf(a), UserOf(b), UserOf(c));
      }
    }
    forall a, b, c | InternalLess(a, c)
      ensures InternalLess(a, b) || InternalLess(b, c)
    {
      BytesTotal(UserOf(a), UserOf(b));
      BytesTotal(UserOf(b), UserOf(c));
      if BytesLess(UserOf(b), UserOf(a)) && BytesLess(UserOf(a), UserOf(c)) {
        BytesTransitive(UserOf(b), UserOf(a), UserOf(c));
      }
    }
  }

  /** A shorter user key gets the tag that comes first. */
  function Shortened(key: seq<Byte>, user: seq<Byte>): seq<Byte> {
    if |user| < |UserOf(key)| && BytesLess(UserOf(key), user) then Internal(user, MAX_TAG) else key
  }

  function InternalSeparator(start: seq<Byte>, limit: seq<Byte>): seq<Byte> {
    Shortened(start, Separator(UserOf(start), UserOf(limit)))
  }

  function InternalSuccessor(key: seq<Byte>): seq<Byte> {
    Shortened(key, Successor(UserOf(key), 0))
  }

  /** The separator is the key itself, or has a user key strictly between the two and
      comes before every entry of its user key. */
  lemma InternalSeparatorBetween(start: seq<Byte>, limit: seq<Byte>)
    requires InternalLess(start, limit)
    ensures var r := InternalSeparator(start, limit);
            && InternalLess(r, limit) && |r| <= |start|
            && (r == start || (InternalLess(start, r) && BytesLess(UserOf(start), UserOf(r))
               && BytesLess(UserOf(r), UserOf(limit)) && TagOf(r) == MAX_TAG))
  {
    hide TagOf, BytesLess, Separator;
    var user := Separator(UserOf(start), UserOf(limit));
    SeparatorBetween(UserOf(start), UserOf(limit));
    InternalParts(user, MAX_TAG);
    BytesTotal(UserOf(start), UserOf(start));
  }

  /** An internal key is shortened exactly if its user key is. */
  lemma InternalShortens(start: seq<Byte>, limit: seq<Byte>)
    ensures var user := Separator(UserOf(start), UserOf(limit));
            InternalSeparator(start, limit) == if |user| < |UserOf(start)| then Internal(user, MAX_TAG) else start
    ensures var user := Successor(UserOf(start), 0);
            InternalSuccessor(start) == if |user| < |UserOf(start)| then Internal(user, MAX_TAG) else start
  {
    hide Separator, Successor, BytesLess;
    SeparatorBetween(UserOf(start), UserOf(limit));
    SuccessorLater(UserOf(start), 0);
  }

  lemma InternalSuccessorLater(key: seq<Byte>)
    ensures var r := InternalSuccessor(key);
            |r| <= |key| && (r == key
                || (InternalLess(key, r) && BytesLess(UserOf(key), UserOf(r)) && TagOf(r) == MAX_TAG))
  {
    hide TagOf, BytesLess, Successor;
    InternalParts(Successor(UserOf(key), 0), MAX_TAG);
  }
}
