/** Internal keys, their order, and the plain map that a pile of versioned
    entries must read like (db/dbformat.h, db/dbformat.cc).

    A user comparator is used only for its total order, and every run touches
    finitely many keys, so user keys are represented by integers in the layers
    that never look inside a key.  The byte layers use real byte strings.
 */
module Format {

  datatype Option<+T> = None | Some(value: T)

  type UserKey = int

  datatype ValueType = Deletion | Value

  /** kMaxSequenceNumber: sequence numbers have 56 bits. */
  const MAX_SEQUENCE: nat := 0xFF_FFFF_FFFF_FFFF

  /** kNumLevels. */
  const NUM_LEVELS := 7

  datatype InternalKey = InternalKey(user: UserKey, sequence: nat, kind: ValueType)

  /** PackSequenceAndType: the type sits in the low eight bits. */
  function Tag(k: InternalKey): nat {
    k.sequence * 256 + (if k.kind.Value? then 1 else 0)
  }

  /** InternalKeyComparator: user key ascending, then tag descending. */
  predicate Less(a: InternalKey, b: InternalKey) {
    a.user < b.user || (a.user == b.user && Tag(a) > Tag(b))
  }

  /** The key a lookup of `u` at snapshot `s` seeks to (kValueTypeForSeek). */
  function SeekKey(u: UserKey, s: nat): InternalKey {
    InternalKey(u, s, Value)
  }

  datatype Entry = Entry(key: InternalKey, value: string)

  predicate Sorted(es: seq<Entry>) {
    forall i, j :: 0 <= i < j < |es| ==> Less(es[i].key, es[j].key)
  }

  /** Position of the first entry not before `k`: what Seek of a table or a
      memtable iterator stands for. */
  function SeekIndex(es: seq<Entry>, k: InternalKey): (i: nat)
    ensures i <= |es|
    ensures forall j :: 0 <= j < i ==> Less(es[j].key, k)
    ensures i < |es| ==> !Less(es[i].key, k)
  {
    if es == [] || !Less(es[0].key, k) then 0 else 1 + SeekIndex(es[1..], k)
  }

  /** What a seek followed by a user-key comparison yields: the entry handed to
      SaveValue, or the memtable entry that MemTable::Get accepts. */
  function Hit(es: seq<Entry>, u: UserKey, s: nat): Option<Entry> {
    var i := SeekIndex(es, SeekKey(u, s));
    if i < |es| && es[i].key.user == u then Some(es[i]) else None
  }

  /** `e` is the newest entry of `u` at or below `s` among `es`. */
  ghost predicate IsNewest(es: set<Entry>, u: UserKey, s: nat, e: Entry) {
    && e in es && e.key.user == u && e.key.sequence <= s
    && forall x :: x in es && x.key.user == u && x.key.sequence <= s ==> x.key.sequence <= e.key.sequence
  }

  ghost predicate NoneVisible(es: set<Entry>, u: UserKey, s: nat) {
    forall x :: x in es && x.key.user == u ==> x.key.sequence > s
  }

  ghost function Elems(es: seq<Entry>): set<Entry> {
    set e | e in es
  }

  lemma HitIsNewest(es: seq<Entry>, u: UserKey, s: nat)
    requires Sorted(es)
    ensures match Hit(es, u, s)
            case Some(e) => IsNewest(Elems(es), u, s, e)
            case None => NoneVisible(Elems(es), u, s)
  {
    var k := SeekKey(u, s);
    var i := SeekIndex(es, k);
    forall x | x in es && x.key.user == u && x.key.sequence <= s
      ensures i < |es| && es[i].key.user == u && x.key.sequence <= es[i].key.sequence
    {
      var j :| 0 <= j < |es| && es[j] == x;
      assert !Less(x.key, k);
      assert i <= j;
      if i < j {
        assert Less(es[i].key, es[j].key);
      }
    }
    if i < |es| && es[i].key.user == u {
      assert !Less(es[i].key, k);
    }
  }

  /** The contents of a plain map after a list of writes. */
  function Replay(hist: seq<Entry>): map<UserKey, string> {
    if hist == [] then map[]
    else
      var m := Replay(hist[..|hist| - 1]);
      var e := hist[|hist| - 1];
      if e.key.kind.Value? then m[e.key.user := e.value] else m - {e.key.user}
  }

  datatype Answer = Found(value: string) | NotFound

  function Lookup(m: map<UserKey, string>, u: UserKey): Answer {
    if u in m then Found(m[u]) else NotFound
  }

  function AnswerOf(r: Option<Entry>): Answer {
    match r
    case Some(e) => if e.key.kind.Value? then Found(e.value) else NotFound
    case None => NotFound
  }

  /** Index of the last write of `u` among the first `s` writes, or -1. */
  function LastWrite(hist: seq<Entry>, u: UserKey, s: nat): (i: int)
    requires s <= |hist|
    ensures -1 <= i < s
    ensures i >= 0 ==> hist[i].key.user == u
    ensures forall j :: i < j < s ==> hist[j].key.user != u
  {
    if s == 0 then -1
    else if hist[s - 1].key.user == u then s - 1
    else LastWrite(hist, u, s - 1)
  }

  /** The plain map holds what the last write of each key left there. */
  lemma {:induction false} ReplayIsLastWrite(hist: seq<Entry>, u: UserKey, s: nat)
    requires s <= |hist|
    ensures var i := LastWrite(hist, u, s);
            Lookup(Replay(hist[..s]), u) == AnswerOf(if i < 0 then None else Some(hist[i]))
  {
    if s > 0 {
      ReplayIsLastWrite(hist, u, s - 1);
      assert hist[..s][..s - 1] == hist[..s - 1];
    }
  }
}
