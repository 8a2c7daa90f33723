/** Block::Iter and BlockBuilder (table/block.cc, table/block_builder.cc): the
    iterator is a cursor over the list that the builder was given. */
module BlockIter {
  import opened Format
  import opened Bytes
  import opened Coding
  import opened Cursor
  import opened Block

  type Less = (seq<Byte>, seq<Byte>) -> bool

  /** The comparator orders the keys; keys that compare equal need not be the same. */
  ghost predicate IsOrder(less: Less) {
    && (forall a, b, c :: less(a, b) && less(b, c) ==> less(a, c))
    && (forall a, b, c :: less(a, c) ==> less(a, b) || less(b, c))
  }

  ghost predicate Rising(kvs: seq<KV>, less: Less) {
    forall i, j :: 0 <= i < j < |kvs| ==> less(kvs[i].key, kvs[j].key)
  }

  /** `i` is the index of the first key at or after the target. */
  ghost predicate IsFirstAt(kvs: seq<KV>, less: Less, target: seq<Byte>, i: nat) {
    && i <= |kvs|
    && (forall j :: 0 <= j < i ==> less(kvs[j].key, target))
    && (forall j :: i <= j < |kvs| ==> !less(kvs[j].key, target))
  }

  /** The restart index covers entry `i`.  It may lag behind by one when `i` is
      itself a restart point. */
  predicate Covers(starts: seq<nat>, r: nat, i: nat) {
    r < |starts| && starts[r] <= i && (r + 1 < |starts| ==> i <= starts[r + 1])
  }

  /** From restart index `r` the index moved up to the last one before `p`. */
  ghost predicate Passed(data: seq<Byte>, restarts: nat, num: nat, r: nat, r': nat, p: nat) {
    && restarts + 4 * num <= |data| && r <= r' < num
    && (forall j :: r < j <= r' ==> RestartPoint(data, restarts, j) < p)
    && (r' + 1 < num ==> RestartPoint(data, restarts, r' + 1) >= p)
  }

  class Iter {
    const data: seq<Byte>
    const restarts: nat
    const numRestarts: nat
    var current: nat
    var restartIndex: nat
    var key: seq<Byte>
    var valueAt: nat
    var valueLength: nat
    var corrupt: bool
    ghost const kvs: seq<KV>
    ghost const starts: seq<nat>
    ghost var pos: Option<nat>

    ghost predicate Block()
    {
      IsBlock(data, restarts, numRestarts, kvs, starts)
    }

    /** The iterator stands on entry `i`. */
    ghost predicate On(i: nat)
      reads this
    {
      && i < |kvs| && current == Off(kvs, starts, i) < restarts && key == kvs[i].key
      && valueAt + valueLength == Off(kvs, starts, i + 1) <= |data|
         && data[valueAt..valueAt + valueLength] == kvs[i].value
      && Covers(starts, restartIndex, i)
    }

    ghost predicate Ok()
      reads this
    {
      && Block() && !corrupt
      && (match pos
          case None => current == restarts
          case Some(i) => On(i))
    }

    /** The next entry to parse is `i`. */
    ghost predicate Ready(i: nat)
      reads this
    {
      && Block() && !corrupt && i <= |kvs| && valueAt + valueLength == Off(kvs, starts, i)
      && (i < |kvs| ==> Completes(kvs, starts, i, key))
      && restartIndex < numRestarts && starts[restartIndex] <= i
      && (restartIndex + 1 < numRestarts ==> i <= starts[restartIndex + 1] + 1)
    }

    constructor (data: seq<Byte>, ghost kvs: seq<KV>, ghost starts: seq<nat>, restarts: nat, num: nat)
      requires IsBlock(data, restarts, num, kvs, starts)
      ensures Ok() && pos == None && this.kvs == kvs && this.starts == starts && this.data == data
    {
      this.data, this.restarts, this.numRestarts := data, restarts, num;
      this.kvs, this.starts := kvs, starts;
      current, restartIndex, key, valueAt, valueLength, corrupt := restarts, num, [], 0, 0, false;
      pos := None;
    }

    method Value() returns (v: seq<Byte>)
      requires Ok() && pos.Some?
      ensures v == kvs[pos.value].value && key == kvs[pos.value].key
    {
      v := data[valueAt..valueAt + valueLength];
    }

    /** ParseNextKey on any bytes: the end, an entry, or a corruption. */
    method ParseNext() returns (ok: bool)
      requires restarts + 4 * numRestarts <= |data| && restartIndex < numRestarts
      modifies this`current, this`restartIndex, this`key, this`valueAt, this`valueLength, this`corrupt
      ensures var p := old(valueAt + valueLength);
              if p >= restarts then !ok && current == restarts && corrupt == old(corrupt)
              else
                var e := ParseEntry(data, restarts, p, old(key));
                if e.None? then !ok && corrupt
                else
                  && ok && current == p && corrupt == old(corrupt) && Parsed(key, valueAt, valueLength) == e.value
                  && Passed(data, restarts, numRestarts, old(restartIndex), restartIndex, p)
    {
      hide ParseEntry, RestartPoint;
      var p := valueAt + valueLength;
      if p >= restarts {
        current, restartIndex := restarts, numRestarts;
        return false;
      }
      var e := ParseEntry(data, restarts, p, key);
      if e.None? {
        current, restartIndex, corrupt, key, valueAt, valueLength := restarts, numRestarts, true, [], 0, 0;
        return false;
      }
      current, key, valueAt, valueLength := p, e.value.key, e.value.valueAt, e.value.valueLength;
      var r := restartIndex;
      while r + 1 < numRestarts && RestartPoint(data, restarts, r + 1) < p
        invariant restartIndex <= r < numRestarts
        invariant forall j :: restartIndex < j <= r ==> RestartPoint(data, restarts, j) < p
      {
        r := r + 1;
      }
      restartIndex := r;
      ok := true;
    }

    method ParseNextKey(ghost i: nat) returns (ok: bool)
      requires Ready(i)
      modifies this
      ensures Ok() && pos == AtIndex(|kvs|, i) && ok == (i < |kvs|)
      ensures ok ==> Ready(i + 1)
    {
      hide IsBlock, Off, Shared;
      hide ParseEntry, Completes, Covers, Passed;
      RangeOf(data, restarts, numRestarts, kvs, starts, i);
      if i < |kvs| {
        ParsesEntry(data, restarts, numRestarts, kvs, starts, i, key);
      }
      ghost var r, before := restartIndex, key;
      ok := ParseNext();
      pos := AtIndex(|kvs|, i);
      if i < |kvs| {
        ParseDone(data, restarts, numRestarts, kvs, starts, i, before, r, restartIndex);
      }
    }

    method SeekToRestartPoint(index: nat)
      requires Block() && !corrupt && index < numRestarts
      modifies this
      ensures Ready(starts[index])
    {
      StartCompletes(data, restarts, numRestarts, kvs, starts, index);
      key, restartIndex, valueAt, valueLength := [], index, RestartPoint(data, restarts, index), 0;
    }

    method SeekToFirst()
      requires Ok()
      modifies this
      ensures Ok() && pos == AtIndex(|kvs|, 0)
    {
      SeekToRestartPoint(0);
      var _ := ParseNextKey(0);
    }

    method SeekToLast()
      requires Ok()
      modifies this
      ensures Ok() && pos == BeforeIndex(|kvs|)
    {
      SeekToRestartPoint(numRestarts - 1);
      ghost var i := starts[numRestarts - 1];
      RunTo(i, |kvs|, restarts);
    }

    /** Parse from entry `i` until the entry ends at `limit`, where entry `n` starts. */
    method RunTo(ghost i: nat, ghost n: nat, limit: nat)
      requires Ready(i) && i <= n <= |kvs| && limit == Off(kvs, starts, n) && (i == n ==> n == |kvs| == 0)
      modifies this
      ensures Ok() && pos == BeforeIndex(n)
    {
      hide IsBlock, Off;
      ghost var k := i;
      var ok := ParseNextKey(k);
      while ok && valueAt + valueLength < limit
        invariant Ok() && k <= n && pos == AtIndex(|kvs|, k) && ok == (k < |kvs|) && (ok ==> k < n && Ready(k + 1))
                  && (!ok ==> n == 0)
        decreases n - k
      {
        RiseBefore(kvs, starts, k + 1, n);
        k := k + 1;
        ok := ParseNextKey(k);
      }
      if ok {
        RiseBefore(kvs, starts, n, k + 1);
        RiseBefore(kvs, starts, k + 1, n);
      }
    }

    method Next()
      requires Ok() && pos.Some?
      modifies this
      ensures Ok() && pos == AtIndex(|kvs|, old(pos).value + 1)
    {
      hide IsBlock, Off, Shared;
      ghost var i := pos.value;
      NextCompletes(kvs, starts, i);
      StartsLength(data, restarts, numRestarts, kvs, starts);
      var _ := ParseNextKey(i + 1);
    }

    /** The binary search of Seek on any bytes: the last restart point whose key is
        before the target, or None where an entry cannot be decoded. */
    method FindRestart(less: Less, target: seq<Byte>) returns (left: Option<nat>)
      requires restarts + 4 * numRestarts <= |data| && numRestarts > 0
      ensures match left
              case None => exists j ::
                            0 < j < numRestarts && RestartKey(data, restarts, RestartPoint(data, restarts, j)).None?
              case Some(l) =>
                && l < numRestarts
                && (l > 0 ==> var k := RestartKey(data, restarts, RestartPoint(data, restarts, l));
                             k.Some? && less(k.value, target))
                && (l + 1 < numRestarts ==>
                      var k := RestartKey(data, restarts, RestartPoint(data, restarts, l + 1));
                     k.Some? && !less(k.value, target))
    {
      hide RestartPoint, RestartKey;
      var low, high := 0, numRestarts - 1;
      while low < high
        invariant 0 <= low <= high < numRestarts
        invariant low > 0 ==> var k := RestartKey(data, restarts, RestartPoint(data, restarts, low));
                             k.Some? && less(k.value, target)
        invariant high + 1 < numRestarts ==>
                    var k := RestartKey(data, restarts, RestartPoint(data, restarts, high + 1));
                   k.Some? && !less(k.value, target)
      {
        var mid := (low + high + 1) / 2;
        var k := RestartKey(data, restarts, RestartPoint(data, restarts, mid));
        if k.None? {
          return None;
        }
        if less(k.value, target) {
          low := mid;
        } else {
          high := mid - 1;
        }
      }
      left := Some(low);
    }

    /** Seek: the first key at or after the target. */
    method Seek(less: Less, target: seq<Byte>)
      requires Ok() && IsOrder(less) && Rising(kvs, less)
      modifies this
      ensures Ok() && exists n :: IsFirstAt(kvs, less, target, n) && pos == AtIndex(|kvs|, n)
    {
      StartsLength(data, restarts, numRestarts, kvs, starts);
      var left := FindRestart(less, target);
      RestartKeysOk(data, restarts, numRestarts, kvs, starts);
      SeekFrom(left, less, target);
    }

    /** The linear search of Seek. */
    method SeekFrom(left: Option<nat>, less: Less, target: seq<Byte>)
      requires Ok() && Rising(kvs, less) && IsOrder(less)
      requires left.Some? && left.value < numRestarts == |starts|
      requires left.value > 0 ==> starts[left.value] < |kvs| && less(kvs[starts[left.value]].key, target)
      requires left.value + 1 < numRestarts ==>
                 starts[left.value + 1] < |kvs| && !less(kvs[starts[left.value + 1]].key, target)
      modifies this
      ensures Ok() && exists n :: IsFirstAt(kvs, less, target, n) && pos == AtIndex(|kvs|, n)
    {
      hide IsBlock, Off, IsOrder;
      SeekToRestartPoint(left.value);
      StartsLength(data, restarts, numRestarts, kvs, starts);
      ghost var i := starts[left.value];
      BeforeLess(kvs, less, target, i);
      while true
        invariant Ready(i) && i <= |kvs| && forall j :: 0 <= j < i ==> less(kvs[j].key, target)
        decreases |kvs| - i
      {
        var ok := ParseNextKey(i);
        if !ok || !less(key, target) {
          FromNotLess(kvs, less, target, i);
          return;
        }
        i := i + 1;
      }
    }

    /** Prev: back to a restart point strictly before the entry, then forward to the
        entry that ends where it starts. */
    method Prev()
      requires Ok() && pos.Some?
      modifies this
      ensures Ok() && pos == BeforeIndex(old(pos).value)
    {
      hide IsBlock, Off, RestartPoint;
      ghost var i := pos.value;
      var original := current;
      StartsLength(data, restarts, numRestarts, kvs, starts);
      assert On(i) && original == Off(kvs, starts, i);
      var r: nat := restartIndex;
      while RestartPoint(data, restarts, r) >= original && r > 0
        invariant r < numRestarts && starts[r] <= i
        modifies {}
        decreases r
      {
        PointOrder(data, restarts, numRestarts, kvs, starts, r, i);
        r := r - 1;
        PointOrder(data, restarts, numRestarts, kvs, starts, r, i);
      }
      PointOrder(data, restarts, numRestarts, kvs, starts, r, i);
      if RestartPoint(data, restarts, r) >= original {
        current, restartIndex := restarts, numRestarts;
        pos := None;
        return;
      }
      SeekToRestartPoint(r);
      RunTo(starts[r], i, original);
    }
  }

  // ----- facts about a block

  /** The full key at a restart point; None if the entry is bad or shares bytes. */
  function RestartKey(data: seq<Byte>, restarts: nat, p: nat): Option<seq<Byte>>
    requires restarts <= |data|
  {
    if p > restarts then None
    else
      var h := DecodeEntry(data[p..restarts]);
      if h.None? || h.value.shared != 0 || restarts - p - h.value.size < h.value.unshared then None
      else Some(data[p + h.value.size..p + h.value.size + h.value.unshared])
  }

  lemma RestartKeysOk(data: seq<Byte>, restarts: nat, num: nat, kvs: seq<KV>, starts: seq<nat>)
    requires IsBlock(data, restarts, num, kvs, starts)
    ensures restarts + 4 * num <= |data|
    ensures forall j :: 0 < j < num ==>
              starts[j] < |kvs| && RestartKey(data, restarts,
                                              RestartPoint(data, restarts, j)) == Some(kvs[starts[j]].key)
  {
    forall j | 0 < j < num
      ensures starts[j] < |kvs|
              && RestartKey(data, restarts, RestartPoint(data, restarts, j)) == Some(kvs[starts[j]].key)
    {
      RestartKeyOk(data, restarts, num, kvs, starts, j);
    }
  }

  lemma RestartKeyOk(data: seq<Byte>, restarts: nat, num: nat, kvs: seq<KV>, starts: seq<nat>, j: nat)
    requires IsBlock(data, restarts, num, kvs, starts) && 0 < j < num
    ensures restarts + 4 * num <= |data| && starts[j] < |kvs|
    ensures RestartKey(data, restarts, RestartPoint(data, restarts, j)) == Some(kvs[starts[j]].key)
  {
    hide DecodeEntry, IsBlock, Off, RestartPoint, Entries;
    StartsLength(data, restarts, num, kvs, starts);
    StartCompletes(data, restarts, num, kvs, starts, j);
    var i := starts[j];
    assert kvs != [];
    ParsesEntry(data, restarts, num, kvs, starts, i, []);
    NothingShared(data, restarts, Off(kvs, starts, i));
  }

  /** An entry that completes the empty key shares nothing. */
  lemma NothingShared(data: seq<Byte>, restarts: nat, p: nat)
    requires p <= restarts <= |data| && ParseEntry(data, restarts, p, []).Some?
    ensures RestartKey(data, restarts, p) == Some(ParseEntry(data, restarts, p, []).value.key)
  {
    hide DecodeEntry;
    var h, none: seq<Byte> := DecodeEntry(data[p..restarts]).value, [];
    var at := p + h.size;
    assert none[..h.shared] + data[at..at + h.unshared] == data[at..at + h.unshared];
  }

  /** Below a key that is before the target all keys are. */
  lemma BeforeLess(kvs: seq<KV>, less: Less, target: seq<Byte>, i: nat)
    requires Rising(kvs, less) && IsOrder(less) && i <= |kvs| && (i > 0 ==> i < |kvs| && less(kvs[i].key, target))
    ensures forall j :: 0 <= j < i ==> less(kvs[j].key, target)
  {
    forall j | 0 <= j < i
      ensures less(kvs[j].key, target)
    {
      assert less(kvs[j].key, kvs[i].key);
    }
  }

  lemma FromNotLess(kvs: seq<KV>, less: Less, target: seq<Byte>, i: nat)
    requires Rising(kvs, less) && IsOrder(less) && i <= |kvs| && (i < |kvs| ==> !less(kvs[i].key, target))
    requires forall j :: 0 <= j < i ==> less(kvs[j].key, target)
    ensures IsFirstAt(kvs, less, target, i)
  {
    forall j | i <= j < |kvs|
      ensures !less(kvs[j].key, target)
    {
      assert i < j ==> less(kvs[i].key, kvs[j].key);
    }
  }

  lemma StartsLength(data: seq<Byte>, restarts: nat, num: nat, kvs: seq<KV>, starts: seq<nat>)
    requires IsBlock(data, restarts, num, kvs, starts)
    ensures num == |starts| > 0 && starts[0] == 0 && restarts + 4 * num <= |data| && restarts == Off(kvs, starts, |kvs|)
    ensures forall i, j :: 0 <= i < j < num ==> starts[i] < starts[j]
    ensures forall j :: 0 <= j < num ==> starts[j] <= |kvs|
    ensures kvs != [] ==> forall j :: 0 <= j < num ==> starts[j] < |kvs|
    ensures kvs == [] ==> num == 1
  {
  }

  lemma RangeOf(data: seq<Byte>, restarts: nat, num: nat, kvs: seq<KV>, starts: seq<nat>, i: nat)
    requires IsBlock(data, restarts, num, kvs, starts) && i <= |kvs|
    ensures Off(kvs, starts, i) <= restarts && (Off(kvs, starts, i) < restarts <==> i < |kvs|)
    ensures num == |starts| && restarts + 4 * num <= |data|
  {
    hide Entries;
    OffsetsRise(kvs, starts, i, |kvs|);
  }

  lemma RiseBefore(kvs: seq<KV>, starts: seq<nat>, i: nat, j: nat)
    requires i <= |kvs| && j <= |kvs|
    ensures i < j ==> Off(kvs, starts, i) < Off(kvs, starts, j)
    ensures i == j ==> Off(kvs, starts, i) == Off(kvs, starts, j)
  {
    hide Entries;
    if i < j {
      OffsetsRise(kvs, starts, i, j);
    }
  }

  /** Restart offsets compare like the entries they belong to. */
  lemma PointOrder(data: seq<Byte>, restarts: nat, num: nat, kvs: seq<KV>, starts: seq<nat>, j: nat, i: nat)
    requires IsBlock(data, restarts, num, kvs, starts) && j < num && i <= |kvs|
    ensures restarts + 4 * j + 4 <= |data| && j < |starts|
    ensures RestartPoint(data, restarts, j) >= Off(kvs, starts, i) <==> starts[j] >= i
  {
    hide Off, RestartPoint;
    assert RestartPoint(data, restarts, j) == Off(kvs, starts, starts[j]);
    RiseBefore(kvs, starts, starts[j], i);
    RiseBefore(kvs, starts, i, starts[j]);
  }

  lemma CoversNow(data: seq<Byte>, restarts: nat, num: nat, kvs: seq<KV>, starts: seq<nat>, r: nat, r': nat, i: nat)
    requires IsBlock(data, restarts, num, kvs, starts) && i < |kvs| && r < num && starts[r] <= i
    requires Passed(data, restarts, num, r, r', Off(kvs, starts, i))
    ensures Covers(starts, r', i)
  {
    hide Off, RestartPoint;
    PointOrder(data, restarts, num, kvs, starts, r', i);
    if r' + 1 < num {
      PointOrder(data, restarts, num, kvs, starts, r' + 1, i);
    }
  }

  lemma ParseDone(data: seq<Byte>, restarts: nat, num: nat, kvs: seq<KV>, starts: seq<nat>, i: nat, key: seq<Byte>,
                  r: nat, r': nat)
    requires IsBlock(data, restarts, num, kvs, starts) && i < |kvs| && Completes(kvs, starts, i, key)
    requires r < num && starts[r] <= i && Passed(data, restarts, num, r, r', Off(kvs, starts, i))
    ensures r' < num && Covers(starts, r', i) && starts[r'] <= i + 1 && (r' + 1 < num ==> i + 1 <= starts[r' + 1] + 1)
    ensures i + 1 < |kvs| ==> Completes(kvs, starts, i + 1, kvs[i].key)
  {
    hide IsBlock, Off, RestartPoint, Completes;
    StartsLength(data, restarts, num, kvs, starts);
    CoversNow(data, restarts, num, kvs, starts, r, r', i);
    NextCompletes(kvs, starts, i);
  }

  lemma NextCompletes(kvs: seq<KV>, starts: seq<nat>, i: nat)
    requires i < |kvs|
    ensures i + 1 < |kvs| ==> Completes(kvs, starts, i + 1, kvs[i].key)
  {
  }

  lemma StartCompletes(data: seq<Byte>, restarts: nat, num: nat, kvs: seq<KV>, starts: seq<nat>, j: nat)
    requires IsBlock(data, restarts, num, kvs, starts) && j < num
    ensures j < |starts| && starts[j] <= |kvs| && RestartPoint(data, restarts, j) == Off(kvs, starts, starts[j])
    ensures starts[j] < |kvs| ==> Completes(kvs, starts, starts[j], [])
    ensures j + 1 < num ==> starts[j] <= starts[j + 1] + 1
  {
    hide Off, RestartPoint;
    assert starts[j] in starts;
  }

  method Take(it: Iter) returns (kv: KV)
    requires it.Ok() && it.pos.Some?
    modifies it
    ensures kv == it.kvs[old(it.pos).value] && it.Ok() && it.pos == AtIndex(|it.kvs|, old(it.pos).value + 1)
  {
    hide IsBlock, Off, Covers;
    var v := it.Value();
    kv := KV(it.key, v);
    it.Next();
  }

  method IsValid(it: Iter) returns (b: bool)
    requires it.Ok()
    ensures b == it.pos.Some?
  {
    b := it.current < it.restarts;
  }

  /** Walking the block from the first entry on returns the list. */
  method Scan(it: Iter) returns (r: seq<KV>)
    requires it.Ok()
    modifies it
    ensures r == it.kvs
  {
    hide IsBlock, Off, Covers;
    r := [];
    it.SeekToFirst();
    var more := IsValid(it);
    while more
      invariant it.Ok() && more == it.pos.Some? && r == (if more then it.kvs[..it.pos.value] else it.kvs)
      decreases if more then |it.kvs| - it.pos.value else 0
    {
      ghost var n := it.pos.value;
      var kv := Take(it);
      assert it.kvs[..n + 1] == it.kvs[..n] + [kv];
      r := r + [kv];
      more := IsValid(it);
      assert n + 1 == |it.kvs| ==> it.kvs[..n + 1] == it.kvs;
    }
  }

  // ----- building a block

  lemma {:induction false} EntriesStay(kvs: seq<KV>, starts: seq<nat>, kv: KV, starts': seq<nat>, n: nat)
    requires n <= |kvs| && (starts' == starts || starts' == starts + [|kvs|])
    ensures Entries(kvs + [kv], starts', n) == Entries(kvs, starts, n)
    decreases n
  {
    hide EntryBytes;
    if n > 0 {
      EntriesStay(kvs, starts, kv, starts', n - 1);
      BytesStay(kvs, starts, kv, starts', n - 1);
    }
  }

  lemma BytesStay(kvs: seq<KV>, starts: seq<nat>, kv: KV, starts': seq<nat>, i: nat)
    requires i < |kvs| && (starts' == starts || starts' == starts + [|kvs|])
    ensures EntryBytes(kvs + [kv], starts', i) == EntryBytes(kvs, starts, i)
  {
    hide Lengths, Shared;
    SharedStays(kvs, starts, kv, starts', i);
  }

  lemma SharedStays(kvs: seq<KV>, starts: seq<nat>, kv: KV, starts': seq<nat>, i: nat)
    requires i < |kvs| && (starts' == starts || starts' == starts + [|kvs|])
    ensures Shared(kvs + [kv], starts', i) == Shared(kvs, starts, i) && (kvs + [kv])[i] == kvs[i]
  {
    hide Common;
  }

  lemma Added(kvs: seq<KV>, starts: seq<nat>, kv: KV, starts': seq<nat>, shared: nat)
    requires StartsOk(kvs, starts) && (starts' == starts || (kvs != [] && starts' == starts + [|kvs|]))
    requires shared == if starts' == starts && kvs != [] then Common(kvs[|kvs| - 1].key, kv.key) else 0
    ensures StartsOk(kvs + [kv], starts') && shared <= |kv.key|
    ensures Entries(kvs + [kv], starts', |kvs| + 1)
            == Entries(kvs, starts,
                       |kvs|) + (Lengths(shared, |kv.key| - shared, |kv.value|) + (kv.key[shared..] + kv.value))
    ensures forall j :: 0 <= j < |starts| ==>
              starts[j] <= |kvs| && Off(kvs + [kv], starts', starts[j]) == Off(kvs, starts, starts[j])
    ensures starts' != starts ==> Off(kvs + [kv], starts', |kvs|) == Off(kvs, starts, |kvs|)
  {
    hide Entries, EntryBytes, Lengths, Common;
    var kvs' := kvs + [kv];
    EntriesStay(kvs, starts, kv, starts', |kvs|);
    forall j | 0 <= j < |starts|
      ensures starts[j] <= |kvs| && Off(kvs', starts', starts[j]) == Off(kvs, starts, starts[j])
    {
      EntriesStay(kvs, starts, kv, starts', starts[j]);
    }
    LastBytes(kvs, starts, kv, starts', shared);
  }

  lemma LastBytes(kvs: seq<KV>, starts: seq<nat>, kv: KV, starts': seq<nat>, shared: nat)
    requires StartsOk(kvs, starts) && (starts' == starts || (kvs != [] && starts' == starts + [|kvs|]))
    requires shared == if starts' == starts && kvs != [] then Common(kvs[|kvs| - 1].key, kv.key) else 0
    ensures shared <= |kv.key|
    ensures Entries(kvs + [kv], starts', |kvs| + 1)
            == Entries(kvs + [kv], starts',
                       |kvs|) + (Lengths(shared, |kv.key| - shared, |kv.value|) + (kv.key[shared..] + kv.value))
  {
    hide Lengths, Common;
    assert kvs != [] ==> (|kvs| in starts' <==> starts' != starts);
    assert Shared(kvs + [kv], starts', |kvs|) == shared;
  }

  /** The buffer is the encoding of what was added; restart points are `interval`
      entries apart, and `counter` entries follow the last one. */
  ghost predicate BuilderOk(interval: nat, kvs: seq<KV>, starts: seq<nat>, buffer: seq<Byte>, restarts: seq<nat>,
                            counter: nat) {
    && interval >= 1 && StartsOk(kvs, starts) && buffer == Entries(kvs, starts, |kvs|)
    && |restarts| == |starts|
    && (forall j :: 0 <= j < |starts| ==> starts[j] <= |kvs| && restarts[j] == Off(kvs, starts, starts[j]))
    && (forall j :: 0 <= j < |starts| ==> starts[j] == j * interval)
    && counter <= interval && |kvs| == starts[|starts| - 1] + counter
  }

  lemma AddedOk(interval: nat, kvs: seq<KV>, starts: seq<nat>, buffer: seq<Byte>, restarts: seq<nat>, counter: nat,
                kv: KV, shared: nat)
    requires BuilderOk(interval, kvs, starts, buffer, restarts, counter)
    requires shared == if counter < interval && kvs != [] then Common(kvs[|kvs| - 1].key, kv.key) else 0
    ensures shared <= |kv.key|
    ensures var more := Lengths(shared, |kv.key| - shared, |kv.value|) + (kv.key[shared..] + kv.value);
            if counter < interval then BuilderOk(interval, kvs + [kv], starts, buffer + more, restarts, counter + 1)
            else BuilderOk(interval, kvs + [kv], starts + [|kvs|], buffer + more, restarts + [|buffer|], 1)
  {
    hide Entries, Lengths, Common;
    if counter < interval {
      Added(kvs, starts, kv, starts, shared);
    } else {
      Added(kvs, starts, kv, starts + [|kvs|], shared);
      assert starts[|starts| - 1] + interval == |starts| * interval;
    }
  }

  lemma EmptyBuilder(interval: nat)
    requires interval >= 1
    ensures BuilderOk(interval, [], [0], [], [0], 0)
  {
  }

  class BlockBuilder {
    const interval: nat
    var buffer: seq<Byte>
    var restarts: seq<nat>
    var counter: nat
    var lastKey: seq<Byte>
    ghost var kvs: seq<KV>
    ghost var starts: seq<nat>

    ghost predicate Valid()
      reads this
    {
      && BuilderOk(interval, kvs, starts, buffer, restarts, counter) && KeysFit(kvs)
      && lastKey == if kvs == [] then [] else kvs[|kvs| - 1].key
    }

    constructor (interval: nat)
      requires interval >= 1
      ensures Valid() && kvs == [] && buffer == [] && this.interval == interval
    {
      this.interval := interval;
      buffer, restarts, counter, lastKey, kvs, starts := [], [0], 0, [], [], [0];
    }

    method Reset()
      requires Valid()
      modifies this
      ensures Valid() && kvs == [] && buffer == []
    {
      EmptyBuilder(interval);
      hide BuilderOk;
      buffer, restarts, counter, lastKey, kvs, starts := [], [0], 0, [], [], [0];
    }

    /** The prefix that the key shares with the last one. */
    method CountShared(key: seq<Byte>) returns (shared: nat)
      ensures shared == Common(lastKey, key)
    {
      shared := 0;
      while shared < |lastKey| && shared < |key| && lastKey[shared] == key[shared]
        invariant shared <= |lastKey| && shared <= |key|
                  && Common(lastKey, key) == shared + Common(lastKey[shared..], key[shared..])
      {
        assert lastKey[shared..][1..] == lastKey[shared + 1..] && key[shared..][1..] == key[shared + 1..];
        shared := shared + 1;
      }
    }

    method Add(key: seq<Byte>, value: seq<Byte>)
      requires Valid() && |key| < LIMIT32 && |value| < LIMIT32
      modifies this
      ensures Valid() && kvs == old(kvs) + [KV(key, value)]
      ensures |buffer| <= |old(buffer)| + 15 + |key| + |value|
    {
      hide BuilderOk, Lengths, Common;
      var shared := 0;
      if counter < interval {
        shared := CountShared(key);
      }
      NothingBefore(key);
      AddedOk(interval, kvs, starts, buffer, restarts, counter, KV(key, value), shared);
      var lengths := PutLengths(shared, |key| - shared, |value|);
      if counter >= interval {
        starts := starts + [|kvs|];
        restarts := restarts + [|buffer|];
        counter := 0;
      }
      buffer := buffer + (lengths + (key[shared..] + value));
      assert lastKey[..shared] + key[shared..] == key;
      lastKey := lastKey[..shared] + key[shared..];
      counter := counter + 1;
      kvs := kvs + [KV(key, value)];
    }

    method Empty() returns (b: bool)
      requires Valid()
      ensures b == (kvs == [])
    {
      OffsetsRise(kvs, starts, 0, |kvs|);
      b := buffer == [];
    }

    method CurrentSizeEstimate() returns (n: nat)
      ensures n == |buffer| + 4 * |restarts| + 4
    {
      n := |buffer| + 4 * |restarts| + 4;
    }

    /** Finish: the restart array and its length follow the entries. */
    method Finish() returns (block: seq<Byte>)
      requires Valid() && |buffer| < LIMIT32
      ensures StartsOk(kvs, starts) && Off(kvs, starts, |kvs|) < LIMIT32 && |starts| < LIMIT32
      ensures forall j :: 0 <= j < |starts| ==> starts[j] <= |kvs| && Off(kvs, starts, starts[j]) < LIMIT32
      ensures block == Finished(kvs, starts)
    {
      hide Entries, Fixed;
      forall j | 0 <= j < |starts|
        ensures Off(kvs, starts, starts[j]) < LIMIT32
      {
        OffsetsRise(kvs, starts, starts[j], |kvs|);
      }
      assert restarts == Offsets(kvs, starts);
      FewStarts(kvs, starts, |starts| - 1);
      OffsetsRise(kvs, starts, 0, |kvs|);
      block := buffer;
      for i := 0 to |restarts|
        invariant block == buffer + FixedArray(restarts[..i])
      {
        assert restarts[..i + 1][..i] == restarts[..i];
        block := block + Fixed(restarts[i]);
      }
      assert restarts[..|restarts|] == restarts;
      block := block + Fixed(|restarts|);
    }
  }

  lemma {:induction false} FewStarts(kvs: seq<KV>, starts: seq<nat>, j: nat)
    requires StartsOk(kvs, starts) && j < |starts|
    ensures j <= starts[j] <= |kvs|
  {
    if j > 0 {
      FewStarts(kvs, starts, j - 1);
    }
  }

  lemma NothingBefore(key: seq<Byte>)
    ensures Common([], key) == 0
  {
  }

  method PutLengths(a: nat, b: nat, c: nat) returns (r: seq<Byte>)
    requires a < LIMIT32 && b < LIMIT32 && c < LIMIT32
    ensures r == Lengths(a, b, c) && |r| <= 15
  {
    hide Varint, Power128;
    Powers();
    VarintLength(a, 5);
    VarintLength(b, 5);
    VarintLength(c, 5);
    var x := EncodeVarint32(a);
    var y := EncodeVarint32(b);
    var z := EncodeVarint32(c);
    r := x + (y + z);
  }
}
