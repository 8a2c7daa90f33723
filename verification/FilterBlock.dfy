/** The filter block of a table (table/filter_block.cc): one filter for every 2 KB
    of data, found through the offset of a data block. */
module FilterBlock {
  import opened Format
  import opened Bytes
  import opened Coding
  import opened Filter

  type Key = seq<Byte>
  type Create = seq<Key> -> seq<Byte>
  type Match = (Key, seq<Byte>) -> bool

  const BASE_LG := 11
  const BASE := 2048

  // ----- the block

  predicate OffsetsFit(offsets: seq<nat>, size: nat) {
    size < LIMIT32 && forall i :: 0 <= i < |offsets| ==> offsets[i] <= size
  }

  function Finished(result: seq<Byte>, offsets: seq<nat>): seq<Byte>
    requires OffsetsFit(offsets, |result|)
  {
    result + FixedArray(offsets) + Fixed(|result|) + [ByteOf(BASE_LG)]
  }

  /** A shift to the right. */
  function ShiftRight(x: nat, n: nat): nat
    decreases n
  {
    if n == 0 then x else ShiftRight(x / 2, n - 1)
  }

  /** The filter number `index` of an offset array that starts at `arrayOffset`.  The
      limit of the last filter is that start, which is stored right behind the array. */
  function FilterMayMatch(matches: Match, contents: seq<Byte>, arrayOffset: nat, index: nat, key: Key): bool
    requires arrayOffset + 4 * index + 8 <= |contents|
  {
    var at := arrayOffset + 4 * index;
    var start, limit := GetFixed(contents[at..at + 4]), GetFixed(contents[at + 4..at + 8]);
    if start <= limit <= arrayOffset then matches(key, contents[start..limit]) else start != limit
  }

  /** FilterBlockReader: where the offset array starts and how many filters there are;
      None if the contents cannot be a filter block. */
  function Layout(contents: seq<Byte>): (r: Option<(nat, nat)>)
    ensures r.Some? ==> r.value.0 + 4 * r.value.1 + 5 <= |contents|
  {
    var n := |contents|;
    if n < 5 then None
    else
      var arrayOffset := GetFixed(contents[n - 5..n - 1]);
      if arrayOffset > n - 5 then None else Some((arrayOffset, (n - 5 - arrayOffset) / 4))
  }

  /** The number of the filter for an offset, by the granularity in the last byte. */
  function FilterIndex(contents: seq<Byte>, blockOffset: nat): nat
    requires contents != []
  {
    ShiftRight(blockOffset, NatOf(contents[|contents| - 1]))
  }

  /** FilterBlockReader::KeyMayMatch: what cannot be read counts as a match. */
  function KeyMayMatch(matches: Match, contents: seq<Byte>, blockOffset: nat, key: Key): bool {
    hide GetFixed, FilterIndex;
    var l := Layout(contents);
    if l.None? then true
    else
      var index := FilterIndex(contents, blockOffset);
      index >= l.value.1 || FilterMayMatch(matches, contents, l.value.0, index, key)
  }

  /** Where filter `i` ends. */
  function Limit(result: seq<Byte>, offsets: seq<nat>, i: nat): nat
    requires i < |offsets|
  {
    if i + 1 < |offsets| then offsets[i + 1] else |result|
  }

  lemma Words(result: seq<Byte>, offsets: seq<nat>, i: nat)
    requires OffsetsFit(offsets, |result|) && i < |offsets|
    ensures var c, at := Finished(result, offsets), |result| + 4 * i;
            && at + 8 <= |c| - 1
            && GetFixed(c[at..at + 4]) == offsets[i] && GetFixed(c[at + 4..at + 8]) == Limit(result, offsets, i)
  {
    hide Fixed, GetFixed, FixedArray;
    var c, table, at := Finished(result, offsets), FixedArray(offsets), |result| + 4 * i;
    FixedArrayAt(offsets, i);
    FixedRoundTrip(offsets[i]);
    assert c[at..at + 4] == table[4 * i..4 * i + 4];
    if i + 1 < |offsets| {
      FixedArrayAt(offsets, i + 1);
      FixedRoundTrip(offsets[i + 1]);
      assert c[at + 4..at + 8] == table[4 * (i + 1)..4 * (i + 1) + 4];
    } else {
      FixedRoundTrip(|result|);
      assert c[at + 4..at + 8] == Fixed(|result|);
    }
  }

  lemma ShiftByBase(x: nat)
    ensures ShiftRight(x, BASE_LG) == x / BASE
  {
    var y := x / 2 / 2 / 2 / 2;
    var z := y / 2 / 2 / 2 / 2;
    assert y == x / 16 && z == y / 16;
    assert ShiftRight(x, 11) == ShiftRight(y, 7);
    assert ShiftRight(y, 7) == ShiftRight(z, 3);
    assert ShiftRight(z, 3) == z / 2 / 2 / 2 == z / 8;
  }

  lemma FinishedLayout(result: seq<Byte>, offsets: seq<nat>, blockOffset: nat)
    requires OffsetsFit(offsets, |result|)
    ensures var c := Finished(result, offsets);
            Layout(c) == Some((|result|, |offsets|)) && FilterIndex(c, blockOffset) == blockOffset / BASE
  {
    hide Fixed, GetFixed, FixedArray, ByteOf, NatOf, ShiftRight;
    var c := Finished(result, offsets);
    var n := |c|;
    ByteRoundTrip(BASE_LG);
    ShiftByBase(blockOffset);
    FixedRoundTrip(|result|);
    assert c[n - 5..n - 1] == Fixed(|result|);
    assert (n - 5 - |result|) / 4 == |offsets|;
  }

  /** The reader finds the filter of an offset by its number. */
  lemma ReadsFilter(matches: Match, result: seq<Byte>, offsets: seq<nat>, blockOffset: nat, key: Key)
    requires OffsetsFit(offsets, |result|) && blockOffset / BASE < |offsets|
    requires var i := blockOffset / BASE; offsets[i] <= Limit(result, offsets, i) <= |result|
    ensures var i := blockOffset / BASE;
            KeyMayMatch(matches, Finished(result, offsets), blockOffset, key) == matches(key,
                    result[offsets[i]..Limit(result, offsets, i)])
  {
    hide Fixed, GetFixed, FixedArray, ByteOf, NatOf, ShiftRight;
    var c, i := Finished(result, offsets), blockOffset / BASE;
    FinishedLayout(result, offsets, blockOffset);
    Words(result, offsets, i);
    assert c[offsets[i]..Limit(result, offsets, i)] == result[offsets[i]..Limit(result, offsets, i)];
  }

  lemma ReadsBehind(matches: Match, result: seq<Byte>, offsets: seq<nat>, blockOffset: nat, key: Key)
    requires OffsetsFit(offsets, |result|) && blockOffset / BASE >= |offsets|
    ensures KeyMayMatch(matches, Finished(result, offsets), blockOffset, key)
  {
    hide Fixed, GetFixed, FixedArray, ByteOf, NatOf, ShiftRight, FilterMayMatch;
    FinishedLayout(result, offsets, blockOffset);
  }

  /** What cannot be a filter block denies nothing. */
  lemma MalformedPasses(matches: Match, contents: seq<Byte>, blockOffset: nat, key: Key)
    requires |contents| < 5 || GetFixed(contents[|contents| - 5..|contents| - 1]) > |contents| - 5
    ensures KeyMayMatch(matches, contents, blockOffset, key)
  {
  }

  // ----- the builder

  /** The keys of the finished filters, and those of the one under construction. */
  datatype Groups = Groups(done: seq<seq<Key>>, pending: seq<Key>)

  function Generate(g: Groups): (r: Groups)
    ensures |r.done| == |g.done| + 1
  {
    Groups(g.done + [g.pending], [])
  }

  /** StartBlock: filters are made up to the one of the new data block. */
  function Start(g: Groups, index: nat): (r: Groups)
    ensures |g.done| <= index ==> |r.done| == index
    decreases index - |g.done|
  {
    if index > |g.done| then Start(Generate(g), index) else g
  }

  function Add(g: Groups, key: Key): Groups {
    g.(pending := g.pending + [key])
  }

  function Close(g: Groups): Groups {
    if g.pending != [] then Generate(g) else g
  }

  /** The key belongs to filter `i`. */
  predicate InGroup(g: Groups, i: nat, key: Key) {
    if i < |g.done| then key in g.done[i] else i == |g.done| && key in g.pending
  }

  /** A key is in the filter of the block that it was added for, and in no other. */
  lemma {:induction false} StartKeeps(g: Groups, index: nat, i: nat, key: Key)
    ensures InGroup(Start(g, index), i, key) <==> InGroup(g, i, key)
    decreases index - |g.done|
  {
    if index > |g.done| {
      StartKeeps(Generate(g), index, i, key);
    }
  }

  lemma AddKeeps(g: Groups, added: Key, i: nat, key: Key)
    ensures InGroup(Add(g, added), i, key) <==> InGroup(g, i, key) || (i == |g.done| && key == added)
  {
  }

  lemma CloseKeeps(g: Groups, i: nat, key: Key)
    ensures i < |Close(g).done| && key in Close(g).done[i] <==> InGroup(g, i, key)
  {
  }

  /** A filter without keys has no bytes. */
  function Made(create: Create, keys: seq<Key>): seq<Byte> {
    if keys == [] then [] else create(keys)
  }

  /** The bytes from each offset to the next one are the filter of that group. */
  ghost predicate Laid(create: Create, result: seq<Byte>, offsets: seq<nat>, done: seq<seq<Key>>) {
    && |offsets| == |done|
    && forall i :: 0 <= i < |offsets| ==>
         && offsets[i] <= Limit(result, offsets, i) <= |result|
         && result[offsets[i]..Limit(result, offsets, i)] == Made(create, done[i])
  }

  lemma Generated(create: Create, result: seq<Byte>, offsets: seq<nat>, g: Groups)
    requires Laid(create, result, offsets, g.done)
    ensures Laid(create, result + Made(create, g.pending), offsets + [|result|], Generate(g).done)
  {
    hide Made;
    var more := Made(create, g.pending);
    var result', offsets' := result + more, offsets + [|result|];
    forall i | 0 <= i < |offsets'|
      ensures offsets'[i] <= Limit(result', offsets', i) <= |result'|
      ensures result'[offsets'[i]..Limit(result', offsets', i)] == Made(create, Generate(g).done[i])
    {
      var from, to := offsets'[i], Limit(result', offsets', i);
      if i < |offsets| {
        assert to == Limit(result, offsets, i);
        assert result'[from..to] == result[from..to];
      } else {
        assert result'[from..to] == more;
      }
    }
  }

  class FilterBlockBuilder {
    const create: Create
    var keys: seq<Key>
    var result: seq<Byte>
    var offsets: seq<nat>
    ghost var groups: Groups

    ghost predicate Valid()
      reads this
    {
      keys == groups.pending && Laid(create, result, offsets, groups.done)
    }

    /** The bytes of all filters, once the pending one is made. */
    ghost function Size(): nat
      reads this
    {
      |result| + |Made(create, keys)|
    }

    constructor (create: Create)
      ensures Valid() && groups == Groups([], []) && this.create == create
    {
      this.create := create;
      keys, result, offsets, groups := [], [], [], Groups([], []);
    }

    method GenerateFilter()
      requires Valid()
      modifies this
      ensures Valid() && groups == Generate(old(groups)) && Size() == old(Size()) && keys == []
    {
      Generated(create, result, offsets, groups);
      groups := Generate(groups);
      offsets := offsets + [|result|];
      if keys != [] {
        result := result + create(keys);
        keys := [];
      }
    }

    method StartBlock(blockOffset: nat)
      requires Valid() && blockOffset / BASE >= |groups.done|
      modifies this
      ensures Valid() && groups == Start(old(groups), blockOffset / BASE) && Size() == old(Size())
    {
      var index := blockOffset / BASE;
      while index > |offsets|
        invariant Valid() && Size() == old(Size()) && index >= |offsets|
                  && Start(groups, index) == Start(old(groups), index)
        decreases index - |offsets|
      {
        GenerateFilter();
      }
    }

    method AddKey(key: Key)
      requires Valid()
      modifies this
      ensures Valid() && groups == Add(old(groups), key)
    {
      keys := keys + [key];
      groups := Add(groups, key);
    }

    /** Finish: a lookup at any offset asks the filter of that offset, and is let
        through behind the last filter. */
    method Finish() returns (block: seq<Byte>)
      requires Valid() && Size() < LIMIT32
      modifies this
      ensures Valid() && groups == Close(old(groups)) && Reads(create, block, groups.done)
      ensures |block| <= LIMIT32 + 4 * |groups.done| + 5
    {
      hide Finished, Reads, Made;
      if keys != [] {
        GenerateFilter();
      }
      block := Encode(result, offsets);
      ReadsAll(create, result, offsets, groups.done);
    }
  }

  /** What the reader answers, whatever the filter policy is. */
  ghost predicate Reads(create: Create, block: seq<Byte>, done: seq<seq<Key>>) {
    forall matches: Match, o: nat, key :: KeyMayMatch(matches, block, o, key) ==
      (o / BASE < |done| ==> matches(key, Made(create, done[o / BASE])))
  }

  lemma ReadsAll(create: Create, result: seq<Byte>, offsets: seq<nat>, done: seq<seq<Key>>)
    requires |result| < LIMIT32 && Laid(create, result, offsets, done)
    ensures OffsetsFit(offsets, |result|) && Reads(create, Finished(result, offsets), done)
  {
    hide KeyMayMatch, Finished, Made;
    forall matches: Match, o: nat, key
      ensures KeyMayMatch(matches, Finished(result, offsets), o, key) == (o / BASE < |done|
              ==> matches(key, Made(create, done[o / BASE])))
    {
      if o / BASE < |offsets| {
        ReadsFilter(matches, result, offsets, o, key);
      } else {
        ReadsBehind(matches, result, offsets, o, key);
      }
    }
  }

  method Encode(result: seq<Byte>, offsets: seq<nat>) returns (block: seq<Byte>)
    requires OffsetsFit(offsets, |result|)
    ensures block == Finished(result, offsets) && |block| == |result| + 4 * |offsets| + 5
  {
    hide Fixed;
    block := result;
    for i := 0 to |offsets|
      invariant block == result + FixedArray(offsets[..i])
    {
      assert offsets[..i + 1][..i] == offsets[..i];
      block := block + Fixed(offsets[i]);
    }
    assert offsets[..|offsets|] == offsets;
    block := block + Fixed(|result|) + [ByteOf(BASE_LG)];
  }

  // ----- policies

  /** What a table needs of a filter policy. */
  ghost predicate NoFalseNegatives(create: Create, matches: Match) {
    forall ks, k :: k in ks ==> matches(k, create(ks))
  }

  /** A key that was added for a data block is let through at the offset of the block. */
  lemma AddedIsFound(create: Create, matches: Match, block: seq<Byte>, g: Groups, o: nat, key: Key)
    requires NoFalseNegatives(create, matches) && Reads(create, block, Close(g).done) && InGroup(g, o / BASE, key)
    ensures KeyMayMatch(matches, block, o, key)
  {
    hide KeyMayMatch;
    CloseKeeps(g, o / BASE, key);
    var ks := Close(g).done[o / BASE];
    assert matches(key, create(ks));
  }

  type Hash = n: nat | n < LIMIT32

  function Hashes(hash: Key -> Hash, ks: seq<Key>): (hs: seq<nat>)
    ensures AllHashes(hs) && |hs| == |ks| && forall i :: 0 <= i < |ks| ==> hs[i] == hash(ks[i])
  {
    if ks == [] then [] else [hash(ks[0])] + Hashes(hash, ks[1..])
  }

  /** The bloom policy is such a policy, whatever the hash function. */
  lemma BloomIsPolicy(hash: Key -> Hash, bitsPerKey: nat)
    ensures NoFalseNegatives((ks: seq<Key>) => Bloom(Hashes(hash, ks), bitsPerKey), (k, f) => BloomMatch(hash(k), f))
  {
    hide Bloom, BloomMatch;
    forall ks: seq<Key>, k | k in ks
      ensures BloomMatch(hash(k), Bloom(Hashes(hash, ks), bitsPerKey))
    {
      var i :| 0 <= i < |ks| && ks[i] == k;
      BloomKeepsKeys(Hashes(hash, ks), bitsPerKey, i);
    }
  }
}
