/** Write batches as bytes (db/write_batch.cc): a sequence number, a count, and one
    record per update. */
module WriteBatch {
  import opened Format
  import opened Bytes
  import opened Coding
  import opened Keys

  datatype Op = Put(key: seq<Byte>, value: seq<Byte>) | Delete(key: seq<Byte>)

  const HEADER := 12
  const TYPE_VALUE: Byte := 1
  const TYPE_DELETION: Byte := 0

  function OpBytes(op: Op): (r: seq<Byte>)
    ensures r != []
  {
    if op.Put? then [TYPE_VALUE] + (Prefixed(op.key) + Prefixed(op.value)) else [TYPE_DELETION] + Prefixed(op.key)
  }

  function OpsBytes(ops: seq<Op>): seq<Byte> {
    if ops == [] then [] else OpBytes(ops[0]) + OpsBytes(ops[1..])
  }

  predicate Fits(op: Op) {
    |op.key| < LIMIT32 && (op.Put? ==> |op.value| < LIMIT32)
  }

  predicate AllFit(ops: seq<Op>) {
    forall i :: 0 <= i < |ops| ==> Fits(ops[i])
  }

  /** rep_. */
  function Rep(sequence: nat, ops: seq<Op>): (r: seq<Byte>)
    requires sequence < LIMIT64 && |ops| < LIMIT32
    ensures |r| >= HEADER
  {
    Fixed64(sequence) + Fixed(|ops|) + OpsBytes(ops)
  }

  // ----- reading

  /** One record: the update, and the rest of the input. */
  function GetOp(b: seq<Byte>): (d: Decoded<Op>)
    requires b != []
    ensures d.Some? ==> |d.value.1| < |b|
  {
    if b[0] == TYPE_VALUE then
      var key := GetPrefixed(b[1..]);
      if key.None? then None else
      var value := GetPrefixed(key.value.1);
      if value.None? then None else Some((Put(key.value.0, value.value.0), value.value.1))
    else if b[0] == TYPE_DELETION then
      var key := GetPrefixed(b[1..]);
      if key.None? then None else Some((Delete(key.value.0), key.value.1))
    else None
  }

  /** What the handler was given, and whether the batch was well formed. */
  datatype Iterated = Iterated(ops: seq<Op>, ok: bool)

  function IterateOps(b: seq<Byte>): Iterated
    decreases |b|
  {
    if b == [] then Iterated([], true)
    else
      var op := GetOp(b);
      if op.None? then Iterated([], false)
      else
        var rest := IterateOps(op.value.1);
        Iterated([op.value.0] + rest.ops, rest.ok)
  }

  function SequenceOf(rep: seq<Byte>): nat
    requires |rep| >= HEADER
  {
    GetFixed64(rep[..8])
  }

  function CountOf(rep: seq<Byte>): nat
    requires |rep| >= HEADER
  {
    GetFixed(rep[8..12])
  }

  /** Iterate: a wrong count is only noticed after all updates were handed over. */
  function IterateRep(rep: seq<Byte>): Iterated {
    if |rep| < HEADER then Iterated([], false)
    else
      var all := IterateOps(rep[HEADER..]);
      Iterated(all.ops, all.ok && |all.ops| == CountOf(rep))
  }

  /** Iterate on any bytes. */
  method Iterate(rep: seq<Byte>) returns (ops: seq<Op>, ok: bool)
    ensures Iterated(ops, ok) == IterateRep(rep)
  {
    hide GetOp, CountOf;
    ops := [];
    if |rep| < HEADER {
      return [], false;
    }
    var input, found := rep[HEADER..], 0;
    ghost var all := IterateOps(input);
    while input != []
      invariant found == |ops| && all == Iterated(ops + IterateOps(input).ops, IterateOps(input).ok)
      decreases |input|
    {
      found := found + 1;
      var op := GetOp(input);
      if op.None? {
        return ops, false;
      }
      ops, input := ops + [op.value.0], op.value.1;
    }
    ok := found == CountOf(rep);
  }

  /** On any bytes, one update: a type byte, 1 or 0, and the strings of its kind. */
  lemma GetOpIs(b: seq<Byte>, op: Op, rest: seq<Byte>)
    requires b != []
    ensures GetOp(b) == Some((op, rest)) <==>
            match op
            case Put(key, value) =>
              b[0] == 1 && exists between :: GetPrefixed(b[1..]) == Some((key, between))
                                             && GetPrefixed(between) == Some((value, rest))
            case Delete(key) => b[0] == 0 && GetPrefixed(b[1..]) == Some((key, rest))
  {
    hide GetPrefixed;
  }

  /** The updates stand one after the other at the front of the bytes. */
  ghost predicate StandIn(b: seq<Byte>, ops: seq<Op>, rest: seq<Byte>)
    decreases |ops|
  {
    if ops == [] then b == rest
    else b != [] && exists after :: GetOp(b) == Some((ops[0], after)) && StandIn(after, ops[1..], rest)
  }

  /** On any bytes: the updates that stand at the front are handed over up to the end, or
      up to what is no update. */
  lemma {:induction false} IterateIs(b: seq<Byte>) returns (rest: seq<Byte>)
    ensures var r := IterateOps(b);
            StandIn(b, r.ops, rest) && if r.ok then rest == [] else rest != [] && GetOp(rest).None?
    decreases |b|
  {
    hide GetOp;
    rest := b;
    if b != [] && GetOp(b).Some? {
      var op := GetOp(b).value;
      rest := IterateIs(op.1);
      var r := IterateOps(b);
      assert r.ops[1..] == IterateOps(op.1).ops;
    }
  }

  /** A batch is well formed if and only if it has a header and its count is the number of
      updates that fill the rest. */
  lemma WellFormedIff(rep: seq<Byte>)
    ensures IterateRep(rep).ok <==>
            |rep| >= 12 && IterateOps(rep[12..]).ok && |IterateOps(rep[12..]).ops| == GetFixed(rep[8..12])
    ensures |rep| >= 12 ==> IterateRep(rep).ops == IterateOps(rep[12..]).ops
  {
  }

  lemma OpRoundTrip(op: Op, rest: seq<Byte>)
    requires Fits(op)
    ensures GetOp(OpBytes(op) + rest) == Some((op, rest))
  {
    hide Prefixed, GetPrefixed;
    var b := OpBytes(op) + rest;
    if op.Put? {
      assert b[1..] == Prefixed(op.key) + (Prefixed(op.value) + rest);
      PrefixedRoundTrip(op.key, Prefixed(op.value) + rest);
      PrefixedRoundTrip(op.value, rest);
    } else {
      assert b[1..] == Prefixed(op.key) + rest;
      PrefixedRoundTrip(op.key, rest);
    }
  }

  lemma {:induction false} OpsRoundTrip(ops: seq<Op>)
    requires AllFit(ops)
    ensures IterateOps(OpsBytes(ops)) == Iterated(ops, true)
  {
    hide OpBytes, GetOp;
    if ops != [] {
      OpRoundTrip(ops[0], OpsBytes(ops[1..]));
      OpsRoundTrip(ops[1..]);
    }
  }

  lemma RepParts(sequence: nat, ops: seq<Op>)
    requires sequence < LIMIT64 && |ops| < LIMIT32
    ensures var rep := Rep(sequence, ops);
            SequenceOf(rep) == sequence && CountOf(rep) == |ops| && rep[HEADER..] == OpsBytes(ops)
  {
    hide Fixed, GetFixed, Fixed64, GetFixed64, OpsBytes;
    var rep := Rep(sequence, ops);
    Fixed64RoundTrip(sequence);
    FixedRoundTrip(|ops|);
    assert rep[..8] == Fixed64(sequence) && rep[8..12] == Fixed(|ops|) && rep[HEADER..] == OpsBytes(ops);
  }

  /** Iterating a batch hands over exactly its updates, in order. */
  lemma BatchRoundTrip(sequence: nat, ops: seq<Op>)
    requires sequence < LIMIT64 && |ops| < LIMIT32 && AllFit(ops)
    ensures IterateRep(Rep(sequence, ops)) == Iterated(ops, true) && SequenceOf(Rep(sequence, ops)) == sequence
  {
    hide Rep, OpsBytes, IterateOps, CountOf, SequenceOf;
    RepParts(sequence, ops);
    OpsRoundTrip(ops);
  }

  lemma {:induction false} OpsBytesAppend(a: seq<Op>, b: seq<Op>)
    ensures OpsBytes(a + b) == OpsBytes(a) + OpsBytes(b)
    decreases |a|
  {
    hide OpBytes;
    if a == [] {
      assert a + b == b;
    } else {
      assert (a + b)[1..] == a[1..] + b;
      OpsBytesAppend(a[1..], b);
    }
  }

  // ----- the batch

  class Batch {
    var rep: seq<Byte>
    ghost var sequence: nat
    ghost var ops: seq<Op>

    ghost predicate Valid()
      reads this
    {
      sequence < LIMIT64 && |ops| < LIMIT32 && AllFit(ops) && rep == Rep(sequence, ops)
    }

    constructor ()
      ensures Valid() && sequence == 0 && ops == []
    {
      rep := Fixed64(0) + Fixed(0);
      sequence, ops := 0, [];
    }

    /** SetCount and SetSequence overwrite the header in place. */
    method SetHeader(newSequence: nat, count: nat)
      requires |rep| >= HEADER && newSequence < LIMIT64 && count < LIMIT32
      modifies this`rep
      ensures rep == Fixed64(newSequence) + Fixed(count) + old(rep)[HEADER..]
    {
      rep := Fixed64(newSequence) + Fixed(count) + rep[HEADER..];
    }

    method SetSequence(newSequence: nat)
      requires Valid() && newSequence < LIMIT64
      modifies this
      ensures Valid() && sequence == newSequence && ops == old(ops)
    {
      hide Fixed, Fixed64, OpsBytes, CountOf, SequenceOf;
      RepParts(sequence, ops);
      SetHeader(newSequence, CountOf(rep));
      sequence := newSequence;
    }

    method AddRecord(op: Op)
      requires Valid() && Fits(op) && |ops| + 1 < LIMIT32
      modifies this
      ensures Valid() && sequence == old(sequence) && ops == old(ops) + [op]
    {
      hide Fixed, Fixed64, OpsBytes, OpBytes, CountOf, SequenceOf;
      RepParts(sequence, ops);
      OpsBytesAppend(ops, [op]);
      OneOp(op);
      SetHeader(SequenceOf(rep), CountOf(rep) + 1);
      rep := rep + OpBytes(op);
      ops := ops + [op];
    }

    method Put(key: seq<Byte>, value: seq<Byte>)
      requires Valid() && |key| < LIMIT32 && |value| < LIMIT32 && |ops| + 1 < LIMIT32
      modifies this
      ensures Valid() && sequence == old(sequence) && ops == old(ops) + [Op.Put(key, value)]
    {
      AddRecord(Op.Put(key, value));
    }

    method Delete(key: seq<Byte>)
      requires Valid() && |key| < LIMIT32 && |ops| + 1 < LIMIT32
      modifies this
      ensures Valid() && sequence == old(sequence) && ops == old(ops) + [Op.Delete(key)]
    {
      AddRecord(Op.Delete(key));
    }

    /** Append: the records of another batch, without its header. */
    method Append(src: Batch)
      requires Valid() && src.Valid() && |ops| + |src.ops| < LIMIT32
      modifies this
      ensures Valid() && sequence == old(sequence) && ops == old(ops) + old(src.ops)
    {
      hide Fixed, Fixed64, OpsBytes, CountOf, SequenceOf;
      RepParts(sequence, ops);
      RepParts(src.sequence, src.ops);
      OpsBytesAppend(ops, src.ops);
      var count, more := CountOf(src.rep), src.rep[HEADER..];
      ghost var both := ops + src.ops;
      SetHeader(SequenceOf(rep), CountOf(rep) + count);
      rep := rep + more;
      ops := both;
    }

    /** InsertInto: the entries that are added to the memtable, as internal keys and
        values; update `i` has sequence number `sequence + i`. */
    method InsertInto() returns (entries: seq<(seq<Byte>, seq<Byte>)>)
      requires Valid() && sequence + |ops| <= MAX_SEQUENCE
      ensures entries == Inserted(ops, sequence)
    {
      hide Rep, GetOp, AllFit, SequenceOf, CountOf, Insert, Inserted, IterateOps;
      BatchRoundTrip(sequence, ops);
      NothingInserted(ops, sequence);
      var next := SequenceOf(rep);
      entries := [];
      var input := rep[HEADER..];
      ghost var n := 0;
      while input != []
        invariant n <= |ops| && next == sequence + n && entries == Inserted(ops[..n], sequence)
        invariant IterateOps(input) == Iterated(ops[n..], true)
        decreases |input|
      {
        IterateStep(input, ops[n..]);
        var op := GetOp(input);
        InsertedOneMore(ops, sequence, n);
        entries := entries + [Insert(op.value.0, next)];
        assert ops[n..][1..] == ops[n + 1..];
        next, input, n := next + 1, op.value.1, n + 1;
      }
      NothingLeft(ops[n..]);
      assert ops[..n] == ops;
    }
  }

  lemma IterateStep(input: seq<Byte>, ops: seq<Op>)
    requires IterateOps(input) == Iterated(ops, true) && input != []
    ensures var op := GetOp(input);
            op.Some? && ops != [] && op.value.0 == ops[0] && IterateOps(op.value.1) == Iterated(ops[1..], true)
  {
    hide GetOp;
  }

  lemma NothingLeft(ops: seq<Op>)
    requires IterateOps([]) == Iterated(ops, true)
    ensures ops == []
  {
  }

  lemma NothingInserted(ops: seq<Op>, first: nat)
    requires first + |ops| <= MAX_SEQUENCE
    ensures Inserted(ops[..0], first) == []
  {
  }

  lemma OneOp(op: Op)
    ensures OpsBytes([op]) == OpBytes(op)
  {
    hide OpBytes;
    assert [op][1..] == [];
  }

  /** The entry of one update; a deletion has an empty value. */
  function Insert(op: Op, sequence: nat): (seq<Byte>, seq<Byte>)
    requires sequence <= MAX_SEQUENCE
  {
    if op.Put? then (Internal(op.key, sequence * 256 + 1), op.value) else (Internal(op.key, sequence * 256), [])
  }

  function Inserted(ops: seq<Op>, first: nat): (r: seq<(seq<Byte>, seq<Byte>)>)
    requires first + |ops| <= MAX_SEQUENCE
    ensures |r| == |ops|
  {
    if ops == [] then [] else Inserted(ops[..|ops| - 1], first) + [Insert(ops[|ops| - 1], first + |ops| - 1)]
  }

  lemma InsertedOneMore(ops: seq<Op>, first: nat, n: nat)
    requires n < |ops| && first + |ops| <= MAX_SEQUENCE
    ensures Inserted(ops[..n + 1], first) == Inserted(ops[..n], first) + [Insert(ops[n], first + n)]
  {
    hide Insert;
    assert ops[..n + 1][..n] == ops[..n];
  }

  /** Entry `i` is update `i` under the sequence number `first + i`. */
  lemma {:induction false} InsertedAt(ops: seq<Op>, first: nat, i: nat)
    requires i < |ops| && first + |ops| <= MAX_SEQUENCE
    ensures var e := Inserted(ops, first)[i];
            && UserOf(e.0) == ops[i].key && TagOf(e.0) / 256 == first + i && (TagOf(e.0) % 256 == 1 <==> ops[i].Put?)
            && e.1 == if ops[i].Put? then ops[i].value else []
    decreases |ops|
  {
    hide UserOf, TagOf, Internal;
    if i < |ops| - 1 {
      InsertedAt(ops[..|ops| - 1], first, i);
    } else {
      InternalParts(ops[i].key, (first + i) * 256);
      InternalParts(ops[i].key, (first + i) * 256 + 1);
    }
  }
}
