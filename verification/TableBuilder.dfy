/** TableBuilder (table/table_builder.cc) and Table::Open (table/table.cc): what is
    added, cut into blocks anywhere, can be looked up in the bytes of the file. */
module TableBuilder {
  import opened Format
  import opened Bytes
  import opened Coding
  import opened Block
  import opened BlockIter
  import opened Keys
  import opened TableFormat
  import opened Table
  import FilterBlock

  // ----- what the builder keeps

  /** The index has an entry for every block, except a pending one for the last block
      while no key of the next one is known. */
  ghost predicate Building(file: seq<Byte>, pieces: seq<Piece>, index: seq<KV>, data: seq<KV>, pending: bool) {
    && Pieces(file, pieces) && Fences(index, pieces) && Rising(data, InternalLess)
    && (forall i :: 0 <= i < |index| ==> OverAll(index[i].key, LastKey(pieces[i].kvs), data))
    && (forall i :: 0 <= i < |pieces| ==> pieces[i].kvs != [] && pieces[i].handle.offset < |file|)
    && |index| == |pieces| - (if pending then 1 else 0)
    && (pending ==> data == []) && (!pending && pieces != [] ==> data != [])
  }

  /** The last key that was added. */
  function Newest(pieces: seq<Piece>, data: seq<KV>): seq<Byte> {
    if data == [] && pieces != [] then LastKey(pieces[|pieces| - 1].kvs) else LastKey(data)
  }

  lemma OverStep(sep: seq<Byte>, last: seq<Byte>, k: seq<Byte>, k': seq<Byte>)
    requires Over(sep, last, k) && InternalLess(k, k')
    ensures Over(sep, last, k')
  {
    hide UserOf, TagOf, BytesLess;
    if BytesLess(UserOf(sep), UserOf(k)) && BytesLess(UserOf(k), UserOf(k')) {
      BytesTransitive(UserOf(sep), UserOf(k), UserOf(k'));
    }
  }

  /** A later key is behind every separator that is in the index. */
  lemma LaterKey(file: seq<Byte>, pieces: seq<Piece>, index: seq<KV>, data: seq<KV>, pending: bool, key: seq<Byte>,
                 i: nat)
    requires Building(file, pieces, index, data, pending) && InternalLess(Newest(pieces, data), key) && i < |index|
    ensures Over(index[i].key, LastKey(pieces[i].kvs), key)
  {
    hide InternalLess, Over, Indexed, PieceOk;
    var sep, last := index[i].key, LastKey(pieces[i].kvs);
    if data != [] {
      assert OverAll(sep, last, data);
      OverStep(sep, last, LastKey(data), key);
    } else {
      var kvs := pieces[|pieces| - 1].kvs;
      assert OverAll(sep, last, kvs);
      OverStep(sep, last, LastKey(kvs), key);
    }
  }

  lemma RisingAppend(kvs: seq<KV>, kv: KV)
    requires Rising(kvs, InternalLess) && (kvs != [] ==> InternalLess(LastKey(kvs), kv.key))
    ensures Rising(kvs + [kv], InternalLess)
  {
    hide InternalLess, IsOrder;
    InternalIsOrder();
    forall i | 0 <= i < |kvs|
      ensures InternalLess(kvs[i].key, kv.key)
    {
      if i < |kvs| - 1 {
        Joins(kvs[i].key, LastKey(kvs), kv.key);
      }
    }
  }

  lemma Joins(a: seq<Byte>, b: seq<Byte>, c: seq<Byte>)
    requires InternalLess(a, b) && InternalLess(b, c)
    ensures InternalLess(a, c)
  {
    hide InternalLess;
    InternalIsOrder();
  }

  lemma NotBack(a: seq<Byte>, b: seq<Byte>)
    requires a == b || InternalLess(a, b)
    ensures !InternalLess(b, a)
  {
    hide UserOf, TagOf, BytesLess;
    BytesTotal(UserOf(a), UserOf(b));
  }

  /** A key at or after the last one bounds the block. */
  lemma UnderLast(sep: seq<Byte>, kvs: seq<KV>)
    requires Rising(kvs, InternalLess) && kvs != [] && (sep == LastKey(kvs) || InternalLess(LastKey(kvs), sep))
    ensures Under(sep, kvs)
  {
    hide InternalLess;
    forall x | 0 <= x < |kvs|
      ensures !InternalLess(sep, kvs[x].key)
    {
      var k, last := kvs[x].key, LastKey(kvs);
      if x < |kvs| - 1 && sep != last {
        Joins(k, last, sep);
      }
      NotBack(k, sep);
    }
  }

  /** Add, when no index entry is pending. */
  lemma AddedNext(file: seq<Byte>, pieces: seq<Piece>, index: seq<KV>, data: seq<KV>, kv: KV)
    requires Building(file, pieces, index, data, false) && (data != [] ==> InternalLess(LastKey(data), kv.key))
    ensures Building(file, pieces, index, data + [kv], false)
  {
    hide InternalLess, Over, Indexed, PieceOk, Fences, Placed;
    RisingAppend(data, kv);
    forall i | 0 <= i < |index|
      ensures OverAll(index[i].key, LastKey(pieces[i].kvs), data + [kv])
    {
      LaterKey(file, pieces, index, data, false, kv.key, i);
      assert OverAll(index[i].key, LastKey(pieces[i].kvs), data);
    }
  }

  /** The pending index entry, as soon as a key of the next block is known. */
  lemma Separated(file: seq<Byte>, pieces: seq<Piece>, index: seq<KV>, key: seq<Byte>, value: seq<Byte>)
    requires Building(file, pieces, index, [], true) && InternalLess(Newest(pieces, []), key)
    ensures var p := pieces[|pieces| - 1];
            Building(file, pieces, index + [KV(InternalSeparator(LastKey(p.kvs), key), EncodeHandle(p.handle))],
                     [KV(key, value)], false)
  {
    hide InternalLess, Over, PieceOk, Placed, EncodeHandle, InternalSeparator;
    var n := |pieces| - 1;
    var last := LastKey(pieces[n].kvs);
    var sep := InternalSeparator(last, key);
    var index', data' := index + [KV(sep, EncodeHandle(pieces[n].handle))], [KV(key, value)];
    SeparatorFits(file, pieces[n], key);
    forall i | 0 <= i < |index'|
      ensures Indexed(index'[i], pieces[i]) && Over(index'[i].key, LastKey(pieces[i].kvs), key)
    {
      if i < n {
        LaterKey(file, pieces, index, [], true, key, i);
      }
    }
    assert Rising(data', InternalLess);
  }

  lemma SeparatorFits(file: seq<Byte>, p: Piece, key: seq<Byte>)
    requires PieceOk(file, p) && p.kvs != [] && InternalLess(LastKey(p.kvs), key)
    ensures var sep := InternalSeparator(LastKey(p.kvs), key); Under(sep, p.kvs) && Over(sep, LastKey(p.kvs), key)
  {
    hide InternalLess, InternalSeparator, UserOf, BytesLess, InFile;
    InternalSeparatorBetween(LastKey(p.kvs), key);
    UnderLast(InternalSeparator(LastKey(p.kvs), key), p.kvs);
  }

  /** Flush: the entries become a block. */
  lemma Flushed(file: seq<Byte>, pieces: seq<Piece>, index: seq<KV>, data: seq<KV>, contents: seq<Byte>)
    requires Building(file, pieces, index, data, false) && data != [] && BlockBytes(contents, data)
    requires |file| < LIMIT64 && |contents| < LIMIT64
    ensures Building(file + (contents + BlockTrailer(contents)), pieces + [Piece(data, Handle(|file|, |contents|))],
                     index, [], true)
  {
    hide InternalLess, Over, BlockBytes, Stored, BlockTrailer, EncodeHandle;
    var more := contents + BlockTrailer(contents);
    var p := Piece(data, Handle(|file|, |contents|));
    NewlyStored(file, contents);
    forall i | 0 <= i < |pieces|
      ensures PieceOk(file + more, pieces[i])
    {
      PieceStays(file, pieces[i], more);
    }
    var pieces' := pieces + [p];
    assert PieceOk(file + more, p);
    assert Placed(pieces');
    forall i, j | 0 <= i < |index| && i < j < |pieces'|
      ensures OverAll(index[i].key, LastKey(pieces'[i].kvs), pieces'[j].kvs)
    {
    }
  }

  lemma PieceStays(file: seq<Byte>, p: Piece, more: seq<Byte>)
    requires PieceOk(file, p)
    ensures PieceOk(file + more, p)
  {
    hide InternalLess;
    InFileStays(file, p.handle, p.kvs, more);
  }

  lemma InFileStays(file: seq<Byte>, h: Handle, kvs: seq<KV>, more: seq<Byte>)
    requires InFile(file, h, kvs)
    ensures InFile(file + more, h, kvs)
  {
    hide Stored, BlockBytes;
    var data :| Stored(file, h, data) && BlockBytes(data, kvs);
    StoredStays(file, h, data, more);
  }

  /** Finish: the last index entry, and then the index is complete. */
  lemma Completed(file: seq<Byte>, pieces: seq<Piece>, index: seq<KV>, pending: bool)
    requires Building(file, pieces, index, [], pending)
    ensures if pending then
              var p := pieces[|pieces| - 1];
              TableOk(file, pieces, index + [KV(InternalSuccessor(LastKey(p.kvs)), EncodeHandle(p.handle))])
            else TableOk(file, pieces, index)
  {
    hide InternalLess, Over, Placed, EncodeHandle, InternalSuccessor, UserOf, BytesLess, InFile;
    if pending {
      var p := pieces[|pieces| - 1];
      assert PieceOk(file, p);
      InternalSuccessorLater(LastKey(p.kvs));
      UnderLast(InternalSuccessor(LastKey(p.kvs)), p.kvs);
    }
  }

  lemma TableStays(file: seq<Byte>, pieces: seq<Piece>, index: seq<KV>, more: seq<Byte>)
    requires TableOk(file, pieces, index)
    ensures TableOk(file + more, pieces, index)
  {
    hide InFile, Fences, InternalLess, Placed;
    forall i | 0 <= i < |pieces|
      ensures PieceOk(file + more, pieces[i])
    {
      PieceStays(file, pieces[i], more);
    }
  }

  // ----- the filter

  /** The keys of a block belong to the filter of the offset of the block. */
  ghost predicate Grouped(g: FilterBlock.Groups, offset: nat, kvs: seq<KV>) {
    forall x :: 0 <= x < |kvs| ==> FilterBlock.InGroup(g, offset / FilterBlock.BASE, kvs[x].key)
  }

  ghost predicate GroupsOk(g: FilterBlock.Groups, size: nat, pieces: seq<Piece>, data: seq<KV>) {
    && |g.done| == size / FilterBlock.BASE && Grouped(g, size, data)
    && forall i :: 0 <= i < |pieces| ==> Grouped(g, pieces[i].handle.offset, pieces[i].kvs)
  }

  lemma GroupAdded(g: FilterBlock.Groups, size: nat, pieces: seq<Piece>, data: seq<KV>, kv: KV)
    requires GroupsOk(g, size, pieces, data)
    ensures GroupsOk(FilterBlock.Add(g, kv.key), size, pieces, data + [kv])
  {
    var g' := FilterBlock.Add(g, kv.key);
    assert FilterBlock.InGroup(g', |g.done|, kv.key);
    forall i | 0 <= i < |pieces|
      ensures Grouped(g', pieces[i].handle.offset, pieces[i].kvs)
    {
      GroupKeeps(g, kv.key, pieces[i].handle.offset, pieces[i].kvs);
    }
    GroupKeeps(g, kv.key, size, data);
  }

  lemma GroupKeeps(g: FilterBlock.Groups, key: seq<Byte>, offset: nat, kvs: seq<KV>)
    requires Grouped(g, offset, kvs)
    ensures Grouped(FilterBlock.Add(g, key), offset, kvs)
  {
    forall x | 0 <= x < |kvs|
      ensures FilterBlock.InGroup(FilterBlock.Add(g, key), offset / FilterBlock.BASE, kvs[x].key)
    {
      FilterBlock.AddKeeps(g, key, offset / FilterBlock.BASE, kvs[x].key);
    }
  }

  lemma GroupStarted(g: FilterBlock.Groups, size: nat, pieces: seq<Piece>, data: seq<KV>, size': nat, h: Handle)
    requires GroupsOk(g, size, pieces, data) && size' >= size == h.offset
    ensures size' / FilterBlock.BASE >= |g.done|
    ensures GroupsOk(FilterBlock.Start(g, size' / FilterBlock.BASE), size', pieces + [Piece(data, h)], [])
  {
    hide FilterBlock.Start;
    var pieces' := pieces + [Piece(data, h)];
    forall i | 0 <= i < |pieces'|
      ensures Grouped(FilterBlock.Start(g, size' / FilterBlock.BASE), pieces'[i].handle.offset, pieces'[i].kvs)
    {
      assert Grouped(g, pieces'[i].handle.offset, pieces'[i].kvs);
      StartKeepsAll(g, size' / FilterBlock.BASE, pieces'[i].handle.offset, pieces'[i].kvs);
    }
  }

  lemma StartKeepsAll(g: FilterBlock.Groups, index: nat, offset: nat, kvs: seq<KV>)
    requires Grouped(g, offset, kvs)
    ensures Grouped(FilterBlock.Start(g, index), offset, kvs)
  {
    hide FilterBlock.Start;
    forall x | 0 <= x < |kvs|
      ensures FilterBlock.InGroup(FilterBlock.Start(g, index), offset / FilterBlock.BASE, kvs[x].key)
    {
      FilterBlock.StartKeeps(g, index, offset / FilterBlock.BASE, kvs[x].key);
    }
  }

  /** With a filter policy that denies none of its keys, the finished filter lets every
      entry through. */
  lemma FilterIsOk(create: FilterBlock.Create, matches: FilterBlock.Match, block: seq<Byte>, g: FilterBlock.Groups,
                   size: nat, pieces: seq<Piece>)
    requires FilterBlock.NoFalseNegatives(create, matches) && GroupsOk(g, size, pieces, [])
    requires FilterBlock.Reads(InternalCreate(create), block, FilterBlock.Close(g).done)
    ensures FilterOk(block, InternalMatch(matches), pieces)
  {
    hide FilterBlock.Reads, FilterBlock.NoFalseNegatives, FilterBlock.KeyMayMatch, FilterBlock.InGroup,
        FilterBlock.Close;
    InternalPolicy(create, matches);
    forall i, x | 0 <= i < |pieces| && 0 <= x < |pieces[i].kvs|
      ensures FilterBlock.KeyMayMatch(InternalMatch(matches), block, pieces[i].handle.offset, pieces[i].kvs[x].key)
    {
      assert Grouped(g, pieces[i].handle.offset, pieces[i].kvs);
      FilterBlock.AddedIsFound(InternalCreate(create), InternalMatch(matches), block, g, pieces[i].handle.offset,
                               pieces[i].kvs[x].key);
    }
  }

  // ----- the builder

  /** Table files are shorter than this. */
  const MAX_FILE: nat := 0x4000_0000_0000_0000

  /** A block builder's bytes are a block of its entries. */
  /** The estimate of a block under construction is the size of the finished block. */
  lemma EstimateIs(interval: nat, kvs: seq<KV>, starts: seq<nat>, buffer: seq<Byte>, restarts: seq<nat>, counter: nat)
    requires BuilderOk(interval, kvs, starts, buffer, restarts, counter)
    requires StartsOk(kvs, starts) && Off(kvs, starts, |kvs|) < LIMIT32 && |starts| < LIMIT32
    requires forall j :: 0 <= j < |starts| ==> starts[j] <= |kvs| && Off(kvs, starts, starts[j]) < LIMIT32
    ensures |Finished(kvs, starts)| == |buffer| + 4 * |restarts| + 4
  {
    hide Entries, Finished;
    FinishedLength(kvs, starts);
  }

  method FinishBlock(b: BlockBuilder) returns (data: seq<Byte>)
    requires b.Valid() && |b.buffer| < LIMIT32
    ensures BlockBytes(data, b.kvs) && |data| < 8 * LIMIT32 && |data| == |b.buffer| + 4 * |b.restarts| + 4
  {
    hide BuilderOk, Off, Finished;
    data := b.Finish();
    EstimateIs(b.interval, b.kvs, b.starts, b.buffer, b.restarts, b.counter);
    assert BytesOf(data, b.kvs, b.starts);
    FewStarts(b.kvs, b.starts, |b.starts| - 1);
    FinishedLength(b.kvs, b.starts);
  }

  // ----- the finished file

  /** Where the parts behind the data blocks are. */
  datatype Parts = Parts(meta: Handle, index: Handle, filter: Handle)

  /** The metaindex block maps the name of the filter policy to the filter block. */
  function MetaOf(filterKey: seq<Byte>, filter: Option<seq<Byte>>, h: Handle): seq<KV> {
    if filter.None? then [] else [KV(filterKey, EncodeHandle(h))]
  }

  ghost predicate LaidOut(file: seq<Byte>, parts: Parts, index: seq<KV>, filterKey: seq<Byte>,
                          filter: Option<seq<Byte>>) {
    && |file| >= FOOTER && Small(parts.meta) && Small(parts.index)
    && ReadFooter(file[|file| - FOOTER..]) == Some((parts.meta, parts.index))
    && InFile(file, parts.meta, MetaOf(filterKey, filter, parts.filter)) && InFile(file, parts.index, index)
    && (filter.Some? ==> Small(parts.filter) && Stored(file, parts.filter, filter.value))
  }

  /** The whole file of a table. */
  ghost predicate TableFile(file: seq<Byte>, pieces: seq<Piece>, index: seq<KV>, filterKey: seq<Byte>,
                            filter: Option<seq<Byte>>) {
    TableOk(file, pieces, index) && exists parts :: LaidOut(file, parts, index, filterKey, filter)
  }

  /** The filter block was made from the keys of the blocks. */
  ghost predicate FilterMade(create: FilterBlock.Create, filter: seq<Byte>, pieces: seq<Piece>) {
    exists g, size :: GroupsOk(g, size, pieces, []) && FilterBlock.Reads(create, filter, FilterBlock.Close(g).done)
  }

  lemma FilterMadeIsOk(create: FilterBlock.Create, matches: FilterBlock.Match, filter: seq<Byte>, pieces: seq<Piece>)
    requires FilterBlock.NoFalseNegatives(create, matches) && FilterMade(InternalCreate(create), filter, pieces)
    ensures FilterOk(filter, InternalMatch(matches), pieces)
  {
    hide GroupsOk, FilterBlock.Reads, FilterBlock.Close, FilterOk, FilterBlock.NoFalseNegatives;
    var g, size :| GroupsOk(g, size, pieces, [])
        && FilterBlock.Reads(InternalCreate(create), filter, FilterBlock.Close(g).done);
    FilterIsOk(create, matches, filter, g, size, pieces);
  }

  /** The file behind its data blocks. */
  function Tail(filter: Option<seq<Byte>>, meta: seq<Byte>, index: seq<Byte>): seq<Byte> {
    (if filter.Some? then filter.value + BlockTrailer(filter.value) else [])
    + (meta + BlockTrailer(meta)) + (index + BlockTrailer(index))
  }

  function PartsAt(size: nat, filter: Option<seq<Byte>>, meta: seq<Byte>, index: seq<Byte>): (parts: Parts) {
    var f := if filter.Some? then |filter.value| + TRAILER else 0;
    Parts(Handle(size + f, |meta|), Handle(size + f + |meta| + TRAILER, |index|),
          Handle(size, if filter.Some? then |filter.value| else 0))
  }

  lemma StoredAt(a: seq<Byte>, contents: seq<Byte>, b: seq<Byte>)
    ensures Stored(a + (contents + BlockTrailer(contents)) + b, Handle(|a|, |contents|), contents)
  {
    hide BlockTrailer, Stored;
    NewlyStored(a, contents);
    StoredStays(a + (contents + BlockTrailer(contents)), Handle(|a|, |contents|), contents, b);
  }

  /** Everything is found again in the finished file. */
  lemma FinishedFile(file: seq<Byte>, pieces: seq<Piece>, index: seq<KV>, filterKey: seq<Byte>,
                     filter: Option<seq<Byte>>,
                     meta: seq<Byte>, indexData: seq<Byte>)
    requires TableOk(file, pieces, index)
    requires var parts := PartsAt(|file|, filter, meta, indexData);
             && Small(parts.meta) && Small(parts.index) && Small(parts.filter)
             && BlockBytes(meta, MetaOf(filterKey, filter, parts.filter)) && BlockBytes(indexData, index)
    ensures var parts := PartsAt(|file|, filter, meta, indexData);
            && |EncodeHandle(parts.meta)| <= 20 && |EncodeHandle(parts.index)| <= 20
            && TableFile(file + Tail(filter, meta, indexData) + Footer(parts.meta, parts.index), pieces, index,
                         filterKey, filter)
  {
    hide BlockBytes, TableOk, Stored, Tail, ReadFooter, EncodeHandle, Footer;
    var parts := PartsAt(|file|, filter, meta, indexData);
    FooterRoundTrip(parts.meta, parts.index);
    var foot := Footer(parts.meta, parts.index);
    var whole := file + Tail(filter, meta, indexData) + foot;
    assert whole[|whole| - FOOTER..] == foot;
    assert whole == file + (Tail(filter, meta, indexData) + foot);
    TableStays(file, pieces, index, Tail(filter, meta, indexData) + foot);
    PartsStored(file, filter, meta, indexData, foot);
    assert LaidOut(whole, parts, index, filterKey, filter);
  }

  lemma PartsStored(file: seq<Byte>, filter: Option<seq<Byte>>, meta: seq<Byte>, index: seq<Byte>, foot: seq<Byte>)
    ensures var whole, parts := file + Tail(filter, meta, index) + foot, PartsAt(|file|, filter, meta, index);
            && Stored(whole, parts.meta, meta) && Stored(whole, parts.index, index)
            && (filter.Some? ==> Stored(whole, parts.filter, filter.value))
  {
    hide Stored, BlockTrailer;
    var whole := file + Tail(filter, meta, index) + foot;
    var raw := if filter.Some? then filter.value + BlockTrailer(filter.value) else [];
    var m, i := meta + BlockTrailer(meta), index + BlockTrailer(index);
    assert whole == (file + raw) + m + (i + foot);
    StoredAt(file + raw, meta, i + foot);
    assert whole == (file + raw + m) + i + foot;
    StoredAt(file + raw + m, index, foot);
    if filter.Some? {
      assert whole == file + raw + (m + i + foot);
      StoredAt(file, filter.value, m + i + foot);
    }
  }

  lemma NothingYet()
    ensures Building([], [], [], [], false) && Newest([], []) == [] && All([]) == []
            && GroupsOk(FilterBlock.Groups([], []), 0, [], [])
  {
  }

  class TableBuilder {
    const blockSize: nat
    const interval: nat
    const dataBlock: BlockBuilder
    const indexBlock: BlockBuilder
    const filterBlock: FilterBlock.FilterBlockBuilder?
    var file: seq<Byte>
    var lastKey: seq<Byte>
    var pendingIndexEntry: bool
    var pendingHandle: Handle
    ghost var pieces: seq<Piece>

    ghost predicate Valid()
      reads this, dataBlock, indexBlock, filterBlock
    {
      && BlocksOk()
      && (filterBlock != null ==> filterBlock.Valid() && GroupsOk(filterBlock.groups, |file|, pieces, dataBlock.kvs))
    }

    ghost predicate BlocksOk()
      reads this, dataBlock, indexBlock
    {
      && dataBlock != indexBlock && dataBlock.Valid() && indexBlock.Valid() && interval >= 1
      && Building(file, pieces, indexBlock.kvs, dataBlock.kvs, pendingIndexEntry)
      && lastKey == Newest(pieces, dataBlock.kvs) && |lastKey| < LIMIT32
      && (pendingIndexEntry ==> pendingHandle == pieces[|pieces| - 1].handle)
    }

    /** The size that the open block would have if it were finished. */
    ghost function SizeEstimate(): nat
      reads this, dataBlock
    {
      |dataBlock.buffer| + 4 * |dataBlock.restarts| + 4
    }

    /** Everything that was added. */
    ghost function Entries(): seq<KV>
      reads this, dataBlock
    {
      All(pieces) + dataBlock.kvs
    }

    /** The index entry of the finished block, once the next key is known. */
    ghost function IndexEntry(key: seq<Byte>): seq<KV>
      reads this
    {
      if pendingIndexEntry then [KV(InternalSeparator(lastKey, key), EncodeHandle(pendingHandle))] else []
    }

    constructor (blockSize: nat, interval: nat, create: Option<FilterBlock.Create>)
      requires interval >= 1
      ensures Valid() && Entries() == [] && file == []
      ensures fresh(dataBlock) && fresh(indexBlock) && (filterBlock != null ==> fresh(filterBlock))
      ensures (filterBlock != null) == create.Some?
              && (filterBlock != null ==> filterBlock.create == InternalCreate(create.value))
    {
      hide Building, GroupsOk, BuilderOk, FilterBlock.Laid, Newest, All;
      NothingYet();
      this.blockSize, this.interval := blockSize, interval;
      dataBlock := new BlockBuilder(interval);
      indexBlock := new BlockBuilder(1);
      if create.Some? {
        filterBlock := new FilterBlock.FilterBlockBuilder(InternalCreate(create.value));
      } else {
        filterBlock := null;
      }
      file, lastKey, pendingIndexEntry, pendingHandle, pieces := [], [], false, Handle(0, 0), [];
    }

    /** WriteRawBlock, uncompressed. */
    method WriteRawBlock(contents: seq<Byte>) returns (h: Handle)
      modifies this`file
      ensures h == Handle(|old(file)|, |contents|) && file == old(file) + (contents + BlockTrailer(contents))
    {
      h := Handle(|file|, |contents|);
      file := file + (contents + BlockTrailer(contents));
    }

    method Flush()
      requires Valid() && |dataBlock.buffer| < LIMIT32 && |file| < MAX_FILE
      modifies this, dataBlock, filterBlock
      ensures Valid() && Entries() == old(Entries()) && dataBlock.kvs == [] && lastKey == old(lastKey)
      ensures |file| <= |old(file)| + 8 * LIMIT32 + TRAILER
      ensures filterBlock != null ==> filterBlock.Size() == old(filterBlock.Size())
      ensures old(dataBlock.kvs) == [] ==> pieces == old(pieces) && file == old(file)
      ensures old(dataBlock.kvs) != [] ==>
                pieces == old(pieces) + [Piece(old(dataBlock.kvs), Handle(|old(file)|, old(SizeEstimate())))]
    {
      hide Building, GroupsOk, BlockBytes, BuilderOk, FilterBlock.Start, FilterBlock.Laid, BlockTrailer,
          FilterBlock.Made, KeysFit, All, Newest;
      var empty := dataBlock.Empty();
      if empty {
        return;
      }
      ghost var before, data := file, dataBlock.kvs;
      NotPending(before, pieces, indexBlock.kvs, data, pendingIndexEntry);
      var contents := FinishBlock(dataBlock);
      Flushed(before, pieces, indexBlock.kvs, data, contents);
      var h := WriteRawBlock(contents);
      dataBlock.Reset();
      pendingHandle, pendingIndexEntry := h, true;
      if filterBlock != null {
        GroupStarted(filterBlock.groups, |before|, pieces, data, |file|, h);
        filterBlock.StartBlock(|file|);
      }
      OnePieceMore(pieces, Piece(data, h));
      pieces := pieces + [Piece(data, h)];
    }

    method Add(key: seq<Byte>, value: seq<Byte>)
      requires Valid() && |key| < LIMIT32 && |value| < LIMIT32
      requires Entries() != [] ==> InternalLess(lastKey, key)
      requires |dataBlock.buffer| + |key| + |value| + 15 < LIMIT32 && |file| < MAX_FILE
      modifies this, dataBlock, indexBlock, filterBlock
      ensures Valid() && Entries() == old(Entries()) + [KV(key, value)] && lastKey == key
      ensures indexBlock.kvs == old(indexBlock.kvs) + old(IndexEntry(key))
      ensures if dataBlock.kvs != [] then SizeEstimate() < blockSize && pieces == old(pieces)
              else
                && |pieces| > 0
                && var size := pieces[|pieces| - 1].handle.size;
                   size >= blockSize
                   && pieces == old(pieces) + [Piece(old(dataBlock.kvs) + [KV(key, value)], Handle(|old(file)|, size))]
    {
      hide Building, GroupsOk, BlockBytes, BuilderOk, FilterBlock.Laid, EncodeHandle, InternalSeparator, InternalLess;
      Put(key, value);
      var size := dataBlock.CurrentSizeEstimate();
      if size >= blockSize {
        Flush();
      }
    }

    method FinishFilter() returns (filter: Option<seq<Byte>>)
      requires Valid() && dataBlock.kvs == [] && (filterBlock != null ==> filterBlock.Size() < LIMIT32)
      modifies filterBlock
      ensures filter.Some? == (filterBlock != null)
      ensures filter.Some? ==>
                FilterMade(filterBlock.create, filter.value, pieces) && |filter.value| <= 2 * LIMIT32 + |file|
    {
      hide Building, BuilderOk, FilterBlock.Laid, FilterBlock.Reads, FilterBlock.Close, InternalLess, Grouped;
      filter := None;
      if filterBlock != null {
        ghost var g := filterBlock.groups;
        var contents := filterBlock.Finish();
        assert GroupsOk(g, |file|, pieces, []);
        ClosedSize(g);
        filter := Some(contents);
      }
    }

    method FinishIndex() returns (data: seq<Byte>)
      requires BlocksOk() && dataBlock.kvs == [] && |indexBlock.buffer| + |lastKey| + 40 < LIMIT32
      modifies this`pendingIndexEntry, indexBlock
      ensures TableOk(file, pieces, indexBlock.kvs) && BlockBytes(data, indexBlock.kvs) && |data| < 8 * LIMIT32
      ensures indexBlock.kvs == old(indexBlock.kvs)
              + if old(pendingIndexEntry) then [KV(InternalSuccessor(lastKey), EncodeHandle(pendingHandle))] else []
    {
      hide Building, GroupsOk, BlockBytes, BuilderOk, FilterBlock.Laid, EncodeHandle, InternalSuccessor, InternalLess,
          TableOk;
      LastStep(file, pieces, indexBlock.kvs, pendingIndexEntry);
      if pendingIndexEntry {
        indexBlock.Add(InternalSuccessor(lastKey), EncodeHandle(pendingHandle));
        pendingIndexEntry := false;
      }
      data := FinishBlock(indexBlock);
    }

    /** Finish: the file is a table of everything that was added. */
    method Finish(filterKey: seq<Byte>) returns (ghost filter: Option<seq<Byte>>)
      requires Valid() && |dataBlock.buffer| < LIMIT32 && |indexBlock.buffer| + |lastKey| + 40 < LIMIT32
      requires |file| < MAX_FILE && |filterKey| + 40 < LIMIT32 && (filterBlock != null ==> filterBlock.Size() < LIMIT32)
      modifies this, dataBlock, indexBlock, filterBlock
      ensures TableFile(file, pieces, indexBlock.kvs, filterKey, filter) && All(pieces) == old(Entries())
      ensures filter.Some? == (filterBlock != null)
              && (filter.Some? ==> FilterMade(filterBlock.create, filter.value, pieces))
    {
      hide Building, GroupsOk, BlockBytes, BuilderOk, FilterBlock.Laid, EncodeHandle, InternalLess, TableOk, TableFile,
          FilterMade, BlockTrailer, All, Footer;
      Flush();
      assert Entries() == All(pieces);
      var contents := FinishFilter();
      var filterHandle := Handle(|file|, 0);
      if contents.Some? {
        filterHandle := Handle(|file|, |contents.value|);
      }
      var meta := MetaBlock(interval, filterKey, contents, filterHandle);
      var indexData := FinishIndex();
      WriteTail(contents, meta, indexData, filterKey);
      filter := contents;
    }

    /** The blocks behind the data blocks, and the footer. */
    method WriteTail(filter: Option<seq<Byte>>, meta: seq<Byte>, indexData: seq<Byte>, filterKey: seq<Byte>)
      requires TableOk(file, pieces, indexBlock.kvs)
      requires var parts := PartsAt(|file|, filter, meta, indexData);
               && Small(parts.meta) && Small(parts.index) && Small(parts.filter)
               && BlockBytes(meta, MetaOf(filterKey, filter, parts.filter)) && BlockBytes(indexData, indexBlock.kvs)
      modifies this`file
      ensures TableFile(file, pieces, indexBlock.kvs, filterKey, filter)
    {
      hide BlockBytes, EncodeHandle, TableOk, TableFile, BlockTrailer, Footer, MetaOf;
      ghost var before := file;
      FinishedFile(before, pieces, indexBlock.kvs, filterKey, filter, meta, indexData);
      if filter.Some? {
        var _ := WriteRawBlock(filter.value);
      }
      var metaHandle := WriteRawBlock(meta);
      var indexHandle := WriteRawBlock(indexData);
      assert file == before + Tail(filter, meta, indexData);
      file := file + Footer(metaHandle, indexHandle);
    }

    /** Add, up to the flush. */
    method Put(key: seq<Byte>, value: seq<Byte>)
      requires Valid() && |key| < LIMIT32 && |value| < LIMIT32
      requires Entries() != [] ==> InternalLess(lastKey, key)
      modifies this, dataBlock, indexBlock, filterBlock
      ensures Valid() && Entries() == old(Entries()) + [KV(key, value)] && lastKey == key && file == old(file)
      ensures |dataBlock.buffer| <= |old(dataBlock.buffer)| + 15 + |key| + |value|
      ensures dataBlock.kvs == old(dataBlock.kvs) + [KV(key, value)] && pieces == old(pieces)
      ensures indexBlock.kvs == old(indexBlock.kvs) + old(IndexEntry(key))
    {
      hide Building, GroupsOk, BuilderOk, FilterBlock.Laid, InternalLess, All, Newest, InternalSeparator, EncodeHandle;
      if filterBlock != null {
        GroupAdded(filterBlock.groups, |file|, pieces, dataBlock.kvs, KV(key, value));
        filterBlock.AddKey(key);
      }
      PutInBlocks(key, value);
    }

    method PutInBlocks(key: seq<Byte>, value: seq<Byte>)
      requires BlocksOk() && |key| < LIMIT32 && |value| < LIMIT32
      requires Entries() != [] ==> InternalLess(lastKey, key)
      modifies this`lastKey, this`pendingIndexEntry, dataBlock, indexBlock
      ensures BlocksOk() && Entries() == old(Entries()) + [KV(key, value)] && lastKey == key
      ensures dataBlock.kvs == old(dataBlock.kvs) + [KV(key, value)]
      ensures |dataBlock.buffer| <= |old(dataBlock.buffer)| + 15 + |key| + |value|
      ensures indexBlock.kvs == old(indexBlock.kvs) + old(IndexEntry(key))
    {
      hide Building, BuilderOk, EncodeHandle, InternalSeparator, InternalLess, All, Newest;
      Step(file, pieces, indexBlock.kvs, dataBlock.kvs, pendingIndexEntry, key, value);
      OneMore(pieces, dataBlock.kvs, KV(key, value));
      if pendingIndexEntry {
        indexBlock.Add(InternalSeparator(lastKey, key), EncodeHandle(pendingHandle));
        pendingIndexEntry := false;
      }
      lastKey := key;
      dataBlock.Add(key, value);
    }
  }

  lemma OnePieceMore(pieces: seq<Piece>, p: Piece)
    requires p.kvs != []
    ensures All(pieces + [p]) + [] == All(pieces) + p.kvs && Newest(pieces + [p], []) == Newest(pieces, p.kvs)
  {
    assert (pieces + [p])[..|pieces|] == pieces;
  }

  lemma NotPending(file: seq<Byte>, pieces: seq<Piece>, index: seq<KV>, data: seq<KV>, pending: bool)
    requires Building(file, pieces, index, data, pending) && data != []
    ensures !pending
  {
  }

  lemma ClosedSize(g: FilterBlock.Groups)
    ensures |FilterBlock.Close(g).done| <= |g.done| + 1
  {
  }

  /** The metaindex block. */
  method MetaBlock(interval: nat, filterKey: seq<Byte>, filter: Option<seq<Byte>>, h: Handle) returns (data: seq<Byte>)
    requires interval >= 1 && |filterKey| + 40 < LIMIT32 && Small(h)
    ensures BlockBytes(data, MetaOf(filterKey, filter, h)) && |data| < 8 * LIMIT32
  {
    hide BlockBytes, BuilderOk, EncodeHandle;
    var b := new BlockBuilder(interval);
    if filter.Some? {
      HandleLength(h);
      b.Add(filterKey, EncodeHandle(h));
    }
    assert b.kvs == MetaOf(filterKey, filter, h);
    data := FinishBlock(b);
  }

  /** Both cases of the index in Finish. */
  lemma LastStep(file: seq<Byte>, pieces: seq<Piece>, index: seq<KV>, pending: bool)
    requires Building(file, pieces, index, [], pending)
    ensures if pending then
              && pieces != []
              && var succ, value := InternalSuccessor(Newest(pieces, [])), EncodeHandle(pieces[|pieces| - 1].handle);
                 |succ| <= |Newest(pieces, [])| && |value| <= 20 && TableOk(file, pieces, index + [KV(succ, value)])
            else TableOk(file, pieces, index)
  {
    hide Fences, OverAll, PieceOk, InternalLess, InternalSuccessor, EncodeHandle, TableOk;
    Completed(file, pieces, index, pending);
    if pending {
      InternalSuccessorLater(Newest(pieces, []));
      HandleLength(pieces[|pieces| - 1].handle);
    }
  }

  lemma OneMore(pieces: seq<Piece>, data: seq<KV>, kv: KV)
    ensures Newest(pieces, data + [kv]) == kv.key && All(pieces) + (data + [kv]) == (All(pieces) + data) + [kv]
  {
    hide All;
  }

  /** Both cases of Add. */
  lemma Step(file: seq<Byte>, pieces: seq<Piece>, index: seq<KV>, data: seq<KV>, pending: bool, key: seq<Byte>,
             value: seq<Byte>)
    requires Building(file, pieces, index, data, pending)
             && (All(pieces) + data != [] ==> InternalLess(Newest(pieces, data), key))
    ensures if pending then
              && pieces != []
              && var sep, value' := InternalSeparator(Newest(pieces, data), key),
                 EncodeHandle(pieces[|pieces| - 1].handle);
                 |sep| <= |Newest(pieces, data)| && |value'| <= 20
                     && Building(file, pieces, index + [KV(sep, value')], data + [KV(key, value)], false)
            else Building(file, pieces, index, data + [KV(key, value)], false)
  {
    hide Fences, OverAll, PieceOk, InternalLess, InternalSeparator, EncodeHandle;
    if pending {
      var p := pieces[|pieces| - 1];
      assert p.kvs != [] && All(pieces) != [];
      InternalSeparatorBetween(LastKey(p.kvs), key);
      HandleLength(p.handle);
      Separated(file, pieces, index, key, value);
      assert data + [KV(key, value)] == [KV(key, value)];
    } else {
      AddedNext(file, pieces, index, data, KV(key, value));
    }
  }

  // ----- reading

  /** Table::Open up to the filter: the handle of the metaindex block and the contents
      of the index block; None is a corruption. */
  function OpenIndex(file: seq<Byte>, verify: bool): Option<(Handle, seq<Byte>)> {
    if |file| < FOOTER then None
    else
      var footer := ReadFooter(file[|file| - FOOTER..]);
      if footer.None? then None
      else
        var data := ReadBlock(file, footer.value.1, verify);
        if data.None? then None else Some((footer.value.0, data.value))
  }

  lemma OpensIndex(file: seq<Byte>, parts: Parts, index: seq<KV>, filterKey: seq<Byte>, filter: Option<seq<Byte>>,
                   verify: bool)
    requires LaidOut(file, parts, index, filterKey, filter)
    ensures var r := OpenIndex(file, verify); r.Some? && r.value.0 == parts.meta && BlockBytes(r.value.1, index)
  {
    hide BlockBytes, Stored, ReadBlock, ReadFooter, MetaOf;
    var data :| Stored(file, parts.index, data) && BlockBytes(data, index);
    StoredReads(file, parts.index, data, verify);
  }

  /** ReadMeta and ReadFilter: the filter, if the table has one under that name. */
  method ReadMeta(file: seq<Byte>, h: Handle, key: seq<Byte>, verify: bool,
                  ghost parts: Parts, ghost index: seq<KV>, ghost filterKey: seq<Byte>, ghost filter: Option<seq<Byte>>)
      returns (r: Option<seq<Byte>>)
    requires LaidOut(file, parts, index, filterKey, filter) && h == parts.meta
    ensures r == if key == filterKey then filter else None
  {
    hide BlockBytes, Stored, ReadBlock, ReadFooter, IsFirstAt, EncodeHandle, DecodeHandle, IsOrder, BytesLess;
    ghost var meta := MetaOf(filterKey, filter, parts.filter);
    ghost var bytes :| Stored(file, parts.meta, bytes) && BlockBytes(bytes, meta);
    StoredReads(file, parts.meta, bytes, verify);
    BytesIsOrder();
    var contents := ReadBlock(file, h, verify);
    var it := OpenBlock(contents.value, meta);
    var entry, n := SeekIn(it, BytesLess, key, meta);
    FirstOfOne(meta, key, n);
    if entry.None? || entry.value.key != key {
      return None;
    }
    HandleDecodes(parts.filter);
    StoredReads(file, parts.filter, filter.value, verify);
    var handle := DecodeHandle(entry.value.value);
    r := ReadBlock(file, handle.value.0, verify);
  }

  lemma FirstOfOne(kvs: seq<KV>, key: seq<Byte>, n: nat)
    requires |kvs| <= 1 && IsFirstAt(kvs, BytesLess, key, n)
    ensures n <= |kvs| && (kvs != [] && kvs[0].key == key ==> n == 0)
  {
    hide BytesLess;
    BytesTotal(key, key);
  }

  /** Table::Open and InternalGet on the bytes of a finished table.  The policy the
      table is opened with need not be the one it was written with. */
  method Get(file: seq<Byte>, key: Option<seq<Byte>>, matches: FilterBlock.Match, verify: bool, target: seq<Byte>,
             ghost pieces: seq<Piece>, ghost index: seq<KV>, ghost filterKey: seq<Byte>,
                 ghost filter: Option<seq<Byte>>) returns (r: Option<KV>)
    requires TableFile(file, pieces, index, filterKey, filter)
    requires key == Some(filterKey) && filter.Some? ==> FilterOk(filter.value, InternalMatch(matches), pieces)
    ensures LookupOk(All(pieces), target, r)
  {
    hide TableOk, LaidOut, BlockBytes, FilterOk, LookupOk, OpenIndex, All;
    ghost var parts :| LaidOut(file, parts, index, filterKey, filter);
    OpensIndex(file, parts, index, filterKey, filter, verify);
    var top := OpenIndex(file, verify);
    var f: Option<seq<Byte>> := None;
    if key.Some? {
      f := ReadMeta(file, top.value.0, key.value, verify, parts, index, filterKey, filter);
    }
    r := InternalGet(file, top.value.1, f, matches, verify, target, pieces, index);
  }
}
