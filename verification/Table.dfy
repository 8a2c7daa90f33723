/** Tables (table/table.cc): a lookup through the index, the filter and one block
    finds what a linear search of all entries finds. */
module Table {
  import opened Format
  import opened Bytes
  import opened Coding
  import opened Cursor
  import opened Block
  import opened BlockIter
  import opened Keys
  import opened TwoLevel
  import opened TableFormat
  import FilterBlock

  // ----- blocks

  ghost predicate CanFinish(kvs: seq<KV>, starts: seq<nat>) {
    && StartsOk(kvs, starts) && Off(kvs, starts, |kvs|) < LIMIT32 && |starts| < LIMIT32
    && (forall j :: 0 <= j < |starts| ==> starts[j] <= |kvs| && Off(kvs, starts, starts[j]) < LIMIT32)
  }

  ghost predicate BytesOf(data: seq<Byte>, kvs: seq<KV>, starts: seq<nat>) {
    CanFinish(kvs, starts) && KeysFit(kvs) && data == Finished(kvs, starts)
  }

  /** The bytes are a block of these entries. */
  ghost predicate BlockBytes(data: seq<Byte>, kvs: seq<KV>) {
    exists starts :: BytesOf(data, kvs, starts)
  }

  lemma BlockParts(data: seq<Byte>, kvs: seq<KV>, starts: seq<nat>)
    requires BytesOf(data, kvs, starts)
    ensures |data| >= 4
    ensures var num := GetFixed(data[|data| - 4..]);
            |data| >= 4 + 4 * num && IsBlock(data, |data| - (1 + num) * 4, num, kvs, starts)
  {
    hide IsBlock, Off, GetFixed, Fixed, FixedArray;
    FinishedIsBlock(kvs, starts);
    FinishedLength(kvs, starts);
  }

  lemma FinishedLength(kvs: seq<KV>, starts: seq<nat>)
    requires CanFinish(kvs, starts)
    ensures |Finished(kvs, starts)| == Off(kvs, starts, |kvs|) + 4 * |starts| + 4
  {
    hide Entries, Fixed;
  }

  /** Block::NewIterator. */
  method OpenBlock(data: seq<Byte>, ghost kvs: seq<KV>) returns (it: Iter)
    requires BlockBytes(data, kvs)
    ensures fresh(it) && it.Ok() && it.kvs == kvs
  {
    hide BytesOf, IsBlock;
    ghost var starts :| BytesOf(data, kvs, starts);
    BlockParts(data, kvs, starts);
    var num := GetFixed(data[|data| - 4..]);
    it := new Iter(data, kvs, starts, |data| - (1 + num) * 4, num);
  }

  // ----- tables

  /** A data block and where it is. */
  datatype Piece = Piece(kvs: seq<KV>, handle: Handle)

  ghost predicate InFile(file: seq<Byte>, h: Handle, kvs: seq<KV>) {
    exists data :: Stored(file, h, data) && BlockBytes(data, kvs)
  }

  function All(pieces: seq<Piece>): seq<KV> {
    if pieces == [] then [] else All(pieces[..|pieces| - 1]) + pieces[|pieces| - 1].kvs
  }

  function LastKey(kvs: seq<KV>): seq<Byte> {
    if kvs == [] then [] else kvs[|kvs| - 1].key
  }

  /** A separator is before the keys of what follows.  If it is not the last key of its
      own block, then its user key is too. */
  predicate Over(sep: seq<Byte>, last: seq<Byte>, k: seq<Byte>) {
    InternalLess(sep, k) && (sep == last || BytesLess(UserOf(sep), UserOf(k)))
  }

  ghost predicate Under(sep: seq<Byte>, kvs: seq<KV>) {
    forall x :: 0 <= x < |kvs| ==> !InternalLess(sep, kvs[x].key)
  }

  ghost predicate OverAll(sep: seq<Byte>, last: seq<Byte>, kvs: seq<KV>) {
    forall x :: 0 <= x < |kvs| ==> Over(sep, last, kvs[x].key)
  }

  /** The entry of the index for a piece. */
  ghost predicate Indexed(kv: KV, p: Piece) {
    kv.value == EncodeHandle(p.handle) && p.kvs != [] && Under(kv.key, p.kvs)
  }

  ghost predicate Fences(index: seq<KV>, pieces: seq<Piece>) {
    && |index| <= |pieces|
    && (forall i :: 0 <= i < |index| ==> Indexed(index[i], pieces[i]))
    && (forall i, j :: 0 <= i < |index| && i < j < |pieces| ==>
         OverAll(index[i].key, LastKey(pieces[i].kvs), pieces[j].kvs))
  }

  /** The blocks are at different places. */
  ghost predicate Placed(pieces: seq<Piece>) {
    && (forall i :: 0 <= i < |pieces| ==> Small(pieces[i].handle))
    && (forall i, j :: 0 <= i < j < |pieces| ==> pieces[i].handle.offset < pieces[j].handle.offset)
  }

  ghost predicate PieceOk(file: seq<Byte>, p: Piece) {
    InFile(file, p.handle, p.kvs) && Rising(p.kvs, InternalLess)
  }

  ghost predicate Pieces(file: seq<Byte>, pieces: seq<Piece>) {
    Placed(pieces) && forall i :: 0 <= i < |pieces| ==> PieceOk(file, pieces[i])
  }

  /** A finished table. */
  ghost predicate TableOk(file: seq<Byte>, pieces: seq<Piece>, index: seq<KV>) {
    Pieces(file, pieces) && |index| == |pieces| && Fences(index, pieces)
  }

  /** The block that an index value leads to. */
  function FindPiece(pieces: seq<Piece>, value: seq<Byte>): seq<KV> {
    if pieces == [] then []
    else if EncodeHandle(pieces[|pieces| - 1].handle) == value then pieces[|pieces| - 1].kvs
    else FindPiece(pieces[..|pieces| - 1], value)
  }

  function Reader(pieces: seq<Piece>): BlockFunction {
    value => FindPiece(pieces, value)
  }

  lemma {:induction false} FindsPiece(pieces: seq<Piece>, i: nat)
    requires Placed(pieces) && i < |pieces|
    ensures FindPiece(pieces, EncodeHandle(pieces[i].handle)) == pieces[i].kvs
    decreases |pieces|
  {
    hide EncodeHandle, Small;
    var n := |pieces| - 1;
    if i < n {
      HandleDecodes(pieces[i].handle);
      HandleDecodes(pieces[n].handle);
      FindsPiece(pieces[..n], i);
    }
  }

  lemma {:induction false} JoinedIsAll(pieces: seq<Piece>, index: seq<KV>, n: nat)
    requires Placed(pieces) && Fences(index, pieces) && n <= |index|
    ensures Joined(index, Reader(pieces), n) == All(pieces[..n])
    decreases n
  {
    hide FindPiece, EncodeHandle, OverAll, Under, Placed;
    if n > 0 {
      JoinedIsAll(pieces, index, n - 1);
      assert Indexed(index[n - 1], pieces[n - 1]);
      FindsPiece(pieces, n - 1);
      assert pieces[..n][..n - 1] == pieces[..n - 1];
    }
  }

  /** The index of a table fences its blocks, as the two-level iterator needs it, and
      the iterator walks all entries. */
  lemma IndexFences(file: seq<Byte>, pieces: seq<Piece>, index: seq<KV>)
    requires TableOk(file, pieces, index)
    ensures IsOrder(InternalLess) && Fenced(index, Reader(pieces), InternalLess)
    ensures Joined(index, Reader(pieces), |index|) == All(pieces) && Rising(All(pieces), InternalLess)
    ensures forall i :: 0 <= i < |index| ==> Reader(pieces)(index[i].value) == pieces[i].kvs
  {
    hide Joined, FindPiece, All, InternalLess, EncodeHandle, IsOrder;
    InternalIsOrder();
    JoinedIsAll(pieces, index, |index|);
    assert pieces[..|pieces|] == pieces;
    forall i | 0 <= i < |index|
      ensures Reader(pieces)(index[i].value) == pieces[i].kvs
    {
      FindsPiece(pieces, i);
      assert Indexed(index[i], pieces[i]) && PieceOk(file, pieces[i]);
    }
    forall i, j | 0 <= i < j < |index|
      ensures InternalLess(index[i].key, index[j].key)
    {
      SeparatorsRise(index, pieces, i, j);
    }
    forall i, kv | 0 <= i < |index| && kv in pieces[i].kvs
      ensures !InternalLess(index[i].key, kv.key)
    {
      assert Indexed(index[i], pieces[i]);
    }
    forall i, j, kv | 0 <= i < j < |index| && kv in pieces[j].kvs
      ensures InternalLess(index[i].key, kv.key)
    {
      assert OverAll(index[i].key, LastKey(pieces[i].kvs), pieces[j].kvs);
    }
    JoinedRises(index, Reader(pieces), InternalLess);
  }

  lemma SeparatorsRise(index: seq<KV>, pieces: seq<Piece>, i: nat, j: nat)
    requires Fences(index, pieces) && IsOrder(InternalLess) && i < j < |index|
    ensures InternalLess(index[i].key, index[j].key)
  {
    hide InternalLess, IsOrder;
    assert Indexed(index[j], pieces[j]) && OverAll(index[i].key, LastKey(pieces[i].kvs), pieces[j].kvs);
    Between(InternalLess, index[i].key, index[j].key, pieces[j].kvs[0].key);
  }

  // ----- lookup

  /** The block of the lookup: if it has no key at or after the target, then the next
      entry of the table is of another user key. */
  lemma NothingBehind(index: seq<KV>, pieces: seq<Piece>, target: seq<Byte>, i: nat, j: nat, x: nat)
    requires Fences(index, pieces) && i < |index| && i < j < |pieces| && x < |pieces[j].kvs|
    requires !InternalLess(index[i].key, target) && InternalLess(LastKey(pieces[i].kvs), target)
    ensures UserOf(pieces[j].kvs[x].key) != UserOf(target)
  {
    hide UserOf, TagOf, BytesLess, EncodeHandle;
    var sep, last, k := index[i].key, LastKey(pieces[i].kvs), pieces[j].kvs[x].key;
    assert OverAll(sep, last, pieces[j].kvs);
    assert Over(sep, last, k);
    BytesTotal(UserOf(sep), UserOf(target));
  }

  /** What a lookup may hand on: only the first entry at or after the target, and that
      one whenever it is of the target's user key. */
  ghost predicate LookupOk(all: seq<KV>, target: seq<Byte>, r: Option<KV>) {
    forall n: nat :: IsFirstAt(all, InternalLess, target, n) ==>
      && (r.Some? ==> n < |all| && r.value == all[n])
      && (n < |all| && UserOf(all[n].key) == UserOf(target) ==> r == Some(all[n]))
  }

  lemma NotBeyond(all: seq<KV>, less: Less, target: seq<Byte>, m: nat, n: nat)
    requires IsFirstAt(all, less, target, m) && n <= |all| && forall j :: 0 <= j < n ==> less(all[j].key, target)
    ensures n <= m
  {
    if n > 0 {
      assert less(all[n - 1].key, target);
    }
  }

  lemma OneFirst(all: seq<KV>, less: Less, target: seq<Byte>, m: nat, n: nat)
    requires IsFirstAt(all, less, target, m) && IsFirstAt(all, less, target, n)
    ensures m == n
  {
    NotBeyond(all, less, target, m, n);
    NotBeyond(all, less, target, n, m);
  }

  lemma SameLength(file: seq<Byte>, pieces: seq<Piece>, index: seq<KV>)
    requires TableOk(file, pieces, index)
    ensures |index| == |pieces|
  {
  }

  /** The index leads behind the last block. */
  lemma NoBlock(file: seq<Byte>, pieces: seq<Piece>, index: seq<KV>, target: seq<Byte>)
    requires TableOk(file, pieces, index) && IsFirstAt(index, InternalLess, target, |index|)
    ensures LookupOk(All(pieces), target, None)
  {
    hide IsOrder, Fenced, IsFirstAt, InternalLess, Joined, All, UserOf, FirstAt, TableOk;
    SameLength(file, pieces, index);
    IndexFences(file, pieces, index);
    IsTheFirst(index, InternalLess, target, |index|);
    SeekBoth(index, Reader(pieces), InternalLess, target);
    forall n: nat | IsFirstAt(All(pieces), InternalLess, target, n)
      ensures n == |All(pieces)|
    {
      OneFirst(All(pieces), InternalLess, target, n, |All(pieces)|);
    }
  }

  lemma IsTheFirst(kvs: seq<KV>, less: Less, target: seq<Byte>, i: nat)
    requires IsFirstAt(kvs, less, target, i)
    ensures FirstAt(kvs, less, target) == i
  {
    var n := FirstAt(kvs, less, target);
    NotBeyond(kvs, less, target, i, n);
  }

  /** The entry that the block seek ends on is the first one of the whole table; if
      there is none, no entry of the user key follows. */
  lemma BlockDecides(file: seq<Byte>, pieces: seq<Piece>, index: seq<KV>, target: seq<Byte>, i: nat, j: nat)
    requires TableOk(file, pieces, index) && i < |index| && IsFirstAt(index, InternalLess, target, i)
    requires IsFirstAt(pieces[i].kvs, InternalLess, target, j)
    ensures LookupOk(All(pieces), target, if j < |pieces[i].kvs| then Some(pieces[i].kvs[j]) else None)
  {
    hide IsOrder, Fenced, IsFirstAt, InternalLess, Joined, All, UserOf, FirstAt, Pieces, Fences;
    FirstInBounds(pieces[i].kvs, target, j);
    var all, block, read := All(pieces), pieces[i].kvs, Reader(pieces);
    IndexFences(file, pieces, index);
    IsTheFirst(index, InternalLess, target, i);
    IsTheFirst(block, InternalLess, target, j);
    SeekBoth(index, read, InternalLess, target);
    var n := StartOf(index, read, i) + j;
    forall m: nat | IsFirstAt(all, InternalLess, target, m)
      ensures m == n
    {
      OneFirst(all, InternalLess, target, m, n);
    }
    if j < |block| {
      JoinedAt(index, read, i, j);
    } else if n < |all| {
      EntryOfLaterBlock(file, pieces, index, i, n, target);
    }
  }

  lemma EntryOfLaterBlock(file: seq<Byte>, pieces: seq<Piece>, index: seq<KV>, i: nat, n: nat, target: seq<Byte>)
    requires TableOk(file, pieces, index) && i < |index|
             && n == StartOf(index, Reader(pieces), i) + |pieces[i].kvs| < |All(pieces)|
    requires IsFirstAt(index, InternalLess, target, i)
             && IsFirstAt(pieces[i].kvs, InternalLess, target, |pieces[i].kvs|)
    ensures UserOf(All(pieces)[n].key) != UserOf(target)
  {
    hide IsOrder, Fenced, InternalLess, Joined, All, UserOf, Placed, PieceOk, OverAll, Under;
    var read := Reader(pieces);
    IndexFences(file, pieces, index);
    StartAfter(index, read, i);
    var j := BlockOf(index, read, |index|, n);
    if j < i {
      StartsRise(index, read, j + 1, i + 1);
    }
    InBlock(index, read, j, n);
    assert Indexed(index[i], pieces[i]);
    NothingBehind(index, pieces, target, i, j, n - StartOf(index, read, j));
  }

  /** The filter lets every entry through at the offset of its block. */
  ghost predicate FilterOk(filter: seq<Byte>, matches: FilterBlock.Match, pieces: seq<Piece>) {
    forall i, x :: 0 <= i < |pieces| && 0 <= x < |pieces[i].kvs| ==>
      FilterBlock.KeyMayMatch(matches, filter, pieces[i].handle.offset, pieces[i].kvs[x].key)
  }

  /** InternalFilterPolicy: only the user key counts. */
  function InternalMatch(matches: FilterBlock.Match): FilterBlock.Match {
    (k, f) => matches(UserOf(k), f)
  }

  function Users(ks: seq<seq<Byte>>): (us: seq<seq<Byte>>)
    ensures |us| == |ks| && forall i :: 0 <= i < |ks| ==> us[i] == UserOf(ks[i])
  {
    if ks == [] then [] else [UserOf(ks[0])] + Users(ks[1..])
  }

  function InternalCreate(create: FilterBlock.Create): FilterBlock.Create {
    ks => create(Users(ks))
  }

  lemma InternalPolicy(create: FilterBlock.Create, matches: FilterBlock.Match)
    requires FilterBlock.NoFalseNegatives(create, matches)
    ensures FilterBlock.NoFalseNegatives(InternalCreate(create), InternalMatch(matches))
  {
    forall ks: seq<seq<Byte>>, k | k in ks
      ensures matches(UserOf(k), create(Users(ks)))
    {
      var i :| 0 <= i < |ks| && ks[i] == k;
      assert Users(ks)[i] == UserOf(k);
    }
  }

  lemma SameUser(matches: FilterBlock.Match, filter: seq<Byte>, offset: nat, k: seq<Byte>, k': seq<Byte>)
    requires UserOf(k) == UserOf(k')
    ensures FilterBlock.KeyMayMatch(InternalMatch(matches), filter, offset,
                                    k) == FilterBlock.KeyMayMatch(InternalMatch(matches), filter, offset, k')
  {
    hide FilterBlock.Layout, FilterBlock.FilterIndex, GetFixed, UserOf;
  }

  /** A lookup that the filter stops would not have found the user key. */
  lemma FilterDecides(file: seq<Byte>, pieces: seq<Piece>, index: seq<KV>, target: seq<Byte>, i: nat, j: nat,
                      filter: seq<Byte>, matches: FilterBlock.Match)
    requires TableOk(file, pieces, index) && i < |index| && IsFirstAt(index, InternalLess, target, i)
    requires IsFirstAt(pieces[i].kvs, InternalLess, target, j)
    requires FilterOk(filter, InternalMatch(matches), pieces)
    requires !FilterBlock.KeyMayMatch(InternalMatch(matches), filter, pieces[i].handle.offset, target)
    ensures LookupOk(All(pieces), target, None)
  {
    hide FilterBlock.KeyMayMatch, UserOf, All, TableOk, InternalLess;
    hide IsFirstAt;
    SameLength(file, pieces, index);
    BlockDecides(file, pieces, index, target, i, j);
    FirstInBounds(pieces[i].kvs, target, j);
    if j < |pieces[i].kvs| {
      var k := pieces[i].kvs[j].key;
      if UserOf(k) == UserOf(target) {
        SameUser(matches, filter, pieces[i].handle.offset, k, target);
      }
    }
  }

  lemma FirstInBounds(kvs: seq<KV>, target: seq<Byte>, j: nat)
    requires IsFirstAt(kvs, InternalLess, target, j)
    ensures j <= |kvs|
  {
  }

  /** BlockReader, without the block cache. */
  method BlockReader(file: seq<Byte>, value: seq<Byte>, verify: bool, ghost h: Handle, ghost kvs: seq<KV>)
      returns (it: Iter)
    requires Small(h) && InFile(file, h, kvs) && value == EncodeHandle(h)
    ensures fresh(it) && it.Ok() && it.kvs == kvs
  {
    hide EncodeHandle, DecodeHandle, Stored, ReadBlock, BlockBytes;
    ghost var bytes :| Stored(file, h, bytes) && BlockBytes(bytes, kvs);
    HandleDecodes(h);
    StoredReads(file, h, bytes, verify);
    var handle := DecodeHandle(value);
    var data := ReadBlock(file, handle.value.0, verify);
    it := OpenBlock(data.value, kvs);
  }

  /** Seek in a block, and the entry there. */
  method SeekIn(it: Iter, less: Less, target: seq<Byte>, ghost kvs: seq<KV>) returns (r: Option<KV>, ghost n: nat)
    requires it.Ok() && it.kvs == kvs && IsOrder(less) && Rising(kvs, less)
    modifies it
    ensures IsFirstAt(kvs, less, target, n) && r == if n < |kvs| then Some(kvs[n]) else None
  {
    hide IsBlock, Off, Covers, IsFirstAt, IsOrder;
    it.Seek(less, target);
    n :| IsFirstAt(kvs, less, target, n) && it.pos == AtIndex(|kvs|, n);
    var valid := IsValid(it);
    if !valid {
      return None, n;
    }
    var v := it.Value();
    r := Some(KV(it.key, v));
  }

  /** InternalGet: what is handed to the saver. */
  method InternalGet(file: seq<Byte>, indexData: seq<Byte>, filter: Option<seq<Byte>>, matches: FilterBlock.Match,
                     verify: bool,
                     target: seq<Byte>, ghost pieces: seq<Piece>, ghost index: seq<KV>) returns (r: Option<KV>)
    requires TableOk(file, pieces, index) && BlockBytes(indexData, index)
    requires filter.Some? ==> FilterOk(filter.value, InternalMatch(matches), pieces)
    ensures LookupOk(All(pieces), target, r)
  {
    hide Fences, FilterOk, FilterBlock.KeyMayMatch, IsOrder, All, LookupOk, IsFirstAt, InternalLess, EncodeHandle,
        DecodeHandle, BlockBytes;
    IndexFences(file, pieces, index);
    var iiter := OpenBlock(indexData, index);
    var entry, i := SeekIn(iiter, InternalLess, target, index);
    if entry.None? {
      FirstWithin(index, target, i);
      NoBlock(file, pieces, index, target);
      return None;
    }
    IndexValue(file, pieces, index, i);
    var h := DecodeHandle(entry.value.value);
    if filter.Some? && h.Some?
        && !FilterBlock.KeyMayMatch(InternalMatch(matches), filter.value, h.value.0.offset, target) {
      ghost var j := FirstOf(pieces[i].kvs, target);
      FilterDecides(file, pieces, index, target, i, j, filter.value, matches);
      return None;
    }
    var it := BlockReader(file, entry.value.value, verify, pieces[i].handle, pieces[i].kvs);
    ghost var j;
    r, j := SeekIn(it, InternalLess, target, pieces[i].kvs);
    BlockDecides(file, pieces, index, target, i, j);
  }

  lemma FirstWithin(kvs: seq<KV>, target: seq<Byte>, n: nat)
    requires IsFirstAt(kvs, InternalLess, target, n) && n >= |kvs|
    ensures n == |kvs|
  {
  }

  lemma IndexValue(file: seq<Byte>, pieces: seq<Piece>, index: seq<KV>, i: nat)
    requires TableOk(file, pieces, index) && i < |index|
    ensures index[i].value == EncodeHandle(pieces[i].handle)
            && DecodeHandle(index[i].value) == Some((pieces[i].handle, []))
    ensures Small(pieces[i].handle) && InFile(file, pieces[i].handle, pieces[i].kvs)
            && Rising(pieces[i].kvs, InternalLess)
  {
    hide EncodeHandle, DecodeHandle;
    assert Indexed(index[i], pieces[i]) && PieceOk(file, pieces[i]);
    HandleDecodes(pieces[i].handle);
  }

  ghost function FirstOf(kvs: seq<KV>, target: seq<Byte>): (n: nat)
    requires Rising(kvs, InternalLess)
    ensures IsFirstAt(kvs, InternalLess, target, n)
  {
    InternalIsOrder();
    var n := FirstAt(kvs, InternalLess, target);
    FromNotLess(kvs, InternalLess, target, n);
    n
  }
}
