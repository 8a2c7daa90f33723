/** The LRU cache (util/cache.cc): a hash table with chained buckets that resizes, a
    list in order of use, and reference counts. */
module Cache {
  import opened Format

  type Key = int

  // ----- the hash table

  /** A handle as the table sees it. */
  datatype Node = Node(key: Key, hash: nat, id: nat)

  ghost function Nodes(list: seq<seq<Node>>): set<Node> {
    set i, n | 0 <= i < |list| && n in list[i] :: n
  }

  predicate InBucket(list: seq<seq<Node>>, i: nat, n: Node) {
    i < |list| && n in list[i]
  }

  /** Every node is in the bucket of its hash, and no key is there twice. */
  ghost predicate TableOk(list: seq<seq<Node>>) {
    && |list| > 0
    && (forall i, n :: InBucket(list, i, n) ==> n.hash % |list| == i)
    && (forall i, a, b :: 0 <= i < |list| && 0 <= a < b < |list[i]| ==> list[i][a].key != list[i][b].key)
    && (forall i, j, m, n :: InBucket(list, i, m) && InBucket(list, j, n) && m.key == n.key ==> m == n)
  }

  /** Nodes of one key carry one hash. */
  ghost predicate Hashed(ns: set<Node>, key: Key, hash: nat) {
    forall n :: n in ns && n.key == key ==> n.hash == hash
  }

  /** What looking up a key should find. */
  ghost predicate Finds(ns: set<Node>, key: Key, r: Option<Node>) {
    match r
    case None => forall n :: n in ns ==> n.key != key
    case Some(n) => n in ns && n.key == key
  }

  ghost function WithoutKey(ns: set<Node>, key: Key): set<Node> {
    set n | n in ns && n.key != key
  }

  /** FindPointer: the position in the chain, or its end. */
  method FindPointer(chain: seq<Node>, key: Key, hash: nat) returns (p: nat)
    ensures p <= |chain| && (forall i :: 0 <= i < p ==> !(chain[i].hash == hash && chain[i].key == key))
    ensures p < |chain| ==> chain[p].hash == hash && chain[p].key == key
  {
    p := 0;
    while p < |chain| && (chain[p].hash != hash || key != chain[p].key)
      invariant p <= |chain| && forall i :: 0 <= i < p ==> !(chain[i].hash == hash && chain[i].key == key)
    {
      p := p + 1;
    }
  }

  lemma KeyIsInItsBucket(list: seq<seq<Node>>, key: Key, hash: nat, p: nat)
    requires TableOk(list) && Hashed(Nodes(list), key, hash)
    requires var chain := list[hash % |list|];
             && p <= |chain| && (forall i :: 0 <= i < p ==> !(chain[i].hash == hash && chain[i].key == key))
             && (p < |chain| ==> chain[p].hash == hash && chain[p].key == key)
    ensures var chain := list[hash % |list|];
            Finds(Nodes(list), key, if p < |chain| then Some(chain[p]) else None)
  {
    var b := hash % |list|;
    forall n | n in Nodes(list) && n.key == key
      ensures p < |list[b]|
    {
      var i :| 0 <= i < |list| && n in list[i];
      assert InBucket(list, i, n);
      var k :| 0 <= k < |list[i]| && list[i][k] == n;
    }
    assert p < |list[b]| ==> list[b][p] in list[b];
  }

  /** One bucket changes; what it held of the key goes, what is new comes. */
  lemma BucketChanged(list: seq<seq<Node>>, b: nat, chain: seq<Node>, key: Key, more: set<Node>)
    requires TableOk(list) && b < |list| && (forall n :: n in Nodes(list) && n.key == key ==> n.hash % |list| == b)
    requires forall n :: n in chain <==> (n in list[b] && n.key != key) || n in more
    requires forall a, c :: 0 <= a < c < |chain| ==> chain[a].key != chain[c].key
    requires forall n :: n in more ==> n.key == key && n.hash % |list| == b
    ensures TableOk(list[b := chain]) && Nodes(list[b := chain]) == WithoutKey(Nodes(list), key) + more
  {
    var list' := list[b := chain];
    forall i, n | InBucket(list', i, n)
      ensures n.hash % |list'| == i && (n in more || (InBucket(list, i, n) && n.key != key))
    {
      if i != b {
        assert InBucket(list, i, n) && n in Nodes(list);
      } else if n !in more {
        assert InBucket(list, b, n);
      }
    }
    forall n | n in WithoutKey(Nodes(list), key) + more
      ensures n in Nodes(list')
    {
      if n in more {
        assert n in list'[b];
      } else {
        var i :| 0 <= i < |list| && n in list[i];
        assert n in list'[i];
      }
    }
    forall n | n in Nodes(list')
      ensures n in WithoutKey(Nodes(list), key) + more
    {
      var i :| 0 <= i < |list'| && n in list'[i];
      assert InBucket(list', i, n);
    }
    forall i, j, m, n | InBucket(list', i, m) && InBucket(list', j, n) && m.key == n.key
      ensures m == n
    {
      if m in more && n in more {
        var x :| 0 <= x < |chain| && chain[x] == m;
        var y :| 0 <= y < |chain| && chain[y] == n;
        assert x == y;
      }
    }
  }

  lemma CountChanged(ns: set<Node>, key: Key, previous: Option<Node>)
    requires Finds(ns, key, previous) && forall m, n :: m in ns && n in ns && m.key == n.key ==> m == n
    ensures |WithoutKey(ns, key)| == |ns| - (if previous.Some? then 1 else 0)
    ensures forall h: Node :: h.key == key ==> |WithoutKey(ns, key) + {h}| == |WithoutKey(ns, key)| + 1
  {
    assert WithoutKey(ns, key) == if previous.Some? then ns - {previous.value} else ns;
  }

  lemma OneNodePerKey(list: seq<seq<Node>>)
    requires TableOk(list)
    ensures forall m, n :: m in Nodes(list) && n in Nodes(list) && m.key == n.key ==> m == n
  {
    forall m, n | m in Nodes(list) && n in Nodes(list) && m.key == n.key
      ensures m == n
    {
      var i :| 0 <= i < |list| && m in list[i];
      var j :| 0 <= j < |list| && n in list[j];
      assert InBucket(list, i, m) && InBucket(list, j, n);
    }
  }

  lemma NodeRemoved(list: seq<seq<Node>>, b: nat, chain: seq<Node>, p: nat, hash: nat)
    requires TableOk(list) && b == hash % |list| && chain == list[b] && p < |chain|
             && Hashed(Nodes(list), chain[p].key, hash)
    ensures var list' := list[b := chain[..p] + chain[p + 1..]];
            TableOk(list') && Nodes(list') == WithoutKey(Nodes(list), chain[p].key)
                && |Nodes(list')| == |Nodes(list)| - 1
  {
    var key, rest := chain[p].key, chain[..p] + chain[p + 1..];
    RemovedFromChain(list, b, chain, p);
    assert chain[p] in list[b];
    OneNodePerKey(list);
    CountChanged(Nodes(list), key, Some(chain[p]));
    BucketChanged(list, b, rest, key, {});
  }

  class HandleTable {
    var list: seq<seq<Node>>
    var elems: nat

    ghost predicate Valid()
      reads this
    {
      TableOk(list) && elems == |Nodes(list)| <= |list|
    }

    constructor ()
      ensures Valid() && Nodes(list) == {}
    {
      list, elems := [[], [], [], []], 0;
    }

    method Lookup(key: Key, hash: nat) returns (r: Option<Node>)
      requires Valid() && Hashed(Nodes(list), key, hash)
      ensures Finds(Nodes(list), key, r)
    {
      var chain := list[hash % |list|];
      var p := FindPointer(chain, key, hash);
      KeyIsInItsBucket(list, key, hash, p);
      r := if p < |chain| then Some(chain[p]) else None;
    }

    /** Insert replaces a node of the same key in its place, or appends. */
    method Insert(h: Node) returns (previous: Option<Node>)
      requires Valid() && Hashed(Nodes(list), h.key, h.hash)
      modifies this
      ensures Valid() && Finds(old(Nodes(list)), h.key, previous)
      ensures Nodes(list) == WithoutKey(old(Nodes(list)), h.key) + {h}
    {
      var b := h.hash % |list|;
      var chain := list[b];
      var p := FindPointer(chain, h.key, h.hash);
      KeyIsInItsBucket(list, h.key, h.hash, p);
      previous := if p < |chain| then Some(chain[p]) else None;
      var chain' := if p < |chain| then chain[p := h] else chain + [h];
      ReplacedChain(list, b, chain, p, h, chain');
      BucketChanged(list, b, chain', h.key, {h});
      OneNodePerKey(list);
      CountChanged(Nodes(list), h.key, previous);
      list := list[b := chain'];
      if previous.None? {
        elems := elems + 1;
        if elems > |list| {
          Resize();
        }
      }
    }

    method Remove(key: Key, hash: nat) returns (r: Option<Node>)
      requires Valid() && Hashed(Nodes(list), key, hash)
      modifies this
      ensures Valid() && Finds(old(Nodes(list)), key, r) && Nodes(list) == WithoutKey(old(Nodes(list)), key)
    {
      var b := hash % |list|;
      var chain := list[b];
      var p := FindPointer(chain, key, hash);
      hide TableOk, Nodes, Hashed;
      KeyIsInItsBucket(list, key, hash, p);
      if p == |chain| {
        assert WithoutKey(Nodes(list), key) == Nodes(list);
        return None;
      }
      NodeRemoved(list, b, chain, p, hash);
      r := Some(chain[p]);
      list := list[b := chain[..p] + chain[p + 1..]];
      elems := elems - 1;
    }

    /** Resize: every node moves to the front of the chain of its new bucket. */
    method Resize()
      requires TableOk(list) && elems == |Nodes(list)|
      modifies this`list
      ensures Valid() && Nodes(list) == old(Nodes(list)) && |list| >= elems
    {
      var length := 4;
      while length < elems
        invariant length >= 4
      {
        length := length * 2;
      }
      var all := list;
      var buckets := EmptyBuckets(length);
      for i := 0 to |all|
        invariant TableOk(buckets) && |buckets| == length
        invariant Nodes(buckets) == Nodes(all[..i])
      {
        buckets := MoveChain(all, i, buckets);
      }
      assert all[..|all|] == all;
      list := buckets;
    }
  }

  method EmptyBuckets(n: nat) returns (r: seq<seq<Node>>)
    requires n > 0
    ensures |r| == n && TableOk(r) && Nodes(r) == {} && forall i :: 0 <= i < n ==> r[i] == []
  {
    r := [];
    for i := 0 to n
      invariant |r| == i && forall j :: 0 <= j < i ==> r[j] == []
    {
      r := r + [[]];
    }
  }

  method MoveChain(all: seq<seq<Node>>, i: nat, into: seq<seq<Node>>) returns (r: seq<seq<Node>>)
    requires TableOk(all) && i < |all| && TableOk(into) && Nodes(into) == Nodes(all[..i])
    ensures TableOk(r) && |r| == |into| && Nodes(r) == Nodes(all[..i + 1])
  {
    r := into;
    var chain := all[i];
    for k := 0 to |chain|
      invariant TableOk(r) && |r| == |into| && Nodes(r) == Nodes(into) + Elements(chain[..k])
    {
      var h := chain[k];
      NotMovedYet(all, i, k);
      var b := h.hash % |r|;
      assert WithoutKey(Nodes(r), h.key) == Nodes(r);
      PushedFront(r, b, h);
      BucketChanged(r, b, [h] + r[b], h.key, {h});
      r := r[b := [h] + r[b]];
      assert chain[..k + 1] == chain[..k] + [h];
    }
    assert chain[..|chain|] == chain;
    NodesOfPrefix(all, i);
  }

  ghost function Elements(chain: seq<Node>): set<Node> {
    set n | n in chain
  }

  lemma NodesOfPrefix(all: seq<seq<Node>>, i: nat)
    requires i < |all|
    ensures Nodes(all[..i + 1]) == Nodes(all[..i]) + Elements(all[i])
  {
    var a, b := all[..i + 1], all[..i];
    forall n | n in Nodes(b) + Elements(all[i])
      ensures n in Nodes(a)
    {
      if n in Nodes(b) {
        var j :| 0 <= j < |b| && n in b[j];
        assert n in a[j];
      } else {
        assert n in a[i];
      }
    }
    forall n | n in Nodes(a)
      ensures n in Nodes(b) + Elements(all[i])
    {
      var j :| 0 <= j < |a| && n in a[j];
      assert j < i ==> n in b[j];
    }
  }

  lemma NotMovedYet(all: seq<seq<Node>>, i: nat, k: nat)
    requires TableOk(all) && i < |all| && k < |all[i]|
    ensures forall n :: n in Nodes(all[..i]) + Elements(all[i][..k]) ==> n.key != all[i][k].key
  {
    var h := all[i][k];
    assert InBucket(all, i, h);
    forall n | n in Nodes(all[..i]) + Elements(all[i][..k])
      ensures n.key != h.key
    {
      if n in Elements(all[i][..k]) {
        var a :| 0 <= a < k && all[i][a] == n;
      } else {
        var j :| 0 <= j < i && n in all[..i][j];
        assert InBucket(all, j, n);
      }
    }
  }

  lemma PushedFront(list: seq<seq<Node>>, b: nat, h: Node)
    requires TableOk(list) && b < |list| && forall n :: n in Nodes(list) ==> n.key != h.key
    ensures forall n :: n in [h] + list[b] <==> (n in list[b] && n.key != h.key) || n in {h}
    ensures forall a, c :: 0 <= a < c < |[h] + list[b]| ==> ([h] + list[b])[a].key != ([h] + list[b])[c].key
  {
    assert forall n :: n in list[b] ==> n in Nodes(list);
    assert forall a :: 0 <= a < |list[b]| ==> list[b][a] in list[b];
  }

  lemma ReplacedChain(list: seq<seq<Node>>, b: nat, chain: seq<Node>, p: nat, h: Node, chain': seq<Node>)
    requires TableOk(list) && b < |list| && chain == list[b] && p <= |chain|
    requires if p < |chain| then chain[p].key == h.key else forall n :: n in Nodes(list) ==> n.key != h.key
    requires chain' == if p < |chain| then chain[p := h] else chain + [h]
    ensures forall n :: n in chain' <==> (n in chain && n.key != h.key) || n == h
    ensures forall a, c :: 0 <= a < c < |chain'| ==> chain'[a].key != chain'[c].key
  {
    assert forall n :: n in chain ==> n in Nodes(list);
    assert p == |chain| ==> forall a :: 0 <= a < |chain| ==> chain[a] in chain;
    OneReplaced(chain, p, h, chain');
  }

  lemma OneReplaced(chain: seq<Node>, p: nat, h: Node, chain': seq<Node>)
    requires p <= |chain| && forall a, c :: 0 <= a < c < |chain| ==> chain[a].key != chain[c].key
    requires forall a :: 0 <= a < |chain| ==> (chain[a].key == h.key <==> a == p)
    requires chain' == if p < |chain| then chain[p := h] else chain + [h]
    ensures forall n :: n in chain' <==> (n in chain && n.key != h.key) || n == h
    ensures forall a, c :: 0 <= a < c < |chain'| ==> chain'[a].key != chain'[c].key
  {
    forall n
      ensures n in chain' <==> (n in chain && n.key != h.key) || n == h
    {
      if n in chain && n.key != h.key {
        var a :| 0 <= a < |chain| && chain[a] == n;
        assert chain'[a] == n;
      }
      assert h == chain'[p];
    }
  }

  lemma RemovedFromChain(list: seq<seq<Node>>, b: nat, chain: seq<Node>, p: nat)
    requires TableOk(list) && b < |list| && chain == list[b] && p < |chain|
    ensures var rest := chain[..p] + chain[p + 1..];
            && (forall n :: n in rest <==> n in chain && n.key != chain[p].key)
            && (forall a, c :: 0 <= a < c < |rest| ==> rest[a].key != rest[c].key)
  {
    var rest := chain[..p] + chain[p + 1..];
    forall n
      ensures n in rest <==> n in chain && n.key != chain[p].key
    {
      if n in chain && n.key != chain[p].key {
        var a :| 0 <= a < |chain| && chain[a] == n;
        assert rest[if a < p then a else a - 1] == n;
      }
      if n in rest {
        var a :| 0 <= a < |rest| && rest[a] == n;
        assert chain[if a < p then a else a + 1] == n;
      }
    }
  }

  // ----- the cache

  /** What never changes about a handle. */
  datatype Info = Info(key: Key, hash: nat, value: int, charge: nat)

  ghost function Total(m: map<nat, Info>): nat
    decreases |m|
  {
    if m == map[] then 0 else
      var k :| k in m;
      m[k].charge + Total(m - {k})
  }

  lemma {:induction false} TotalWithout(m: map<nat, Info>, k: nat)
    requires k in m
    ensures Total(m) == m[k].charge + Total(m - {k})
    decreases |m|
  {
    var p :| p in m && Total(m) == m[p].charge + Total(m - {p});
    if p != k {
      TotalWithout(m - {p}, k);
      assert m - {p} - {k} == m - {k} - {p};
      TotalWithout(m - {k}, p);
    }
  }

  lemma TotalWith(m: map<nat, Info>, k: nat, info: Info)
    requires k !in m
    ensures Total(m[k := info]) == Total(m) + info.charge
  {
    TotalWithout(m[k := info], k);
    assert m[k := info] - {k} == m;
  }

  function Without(lru: seq<nat>, id: nat): (r: seq<nat>)
    ensures forall x :: x in r <==> x in lru && x != id
  {
    if lru == [] then []
    else
      var rest := Without(lru[..|lru| - 1], id);
      if lru[|lru| - 1] == id then rest else rest + [lru[|lru| - 1]]
  }

  ghost predicate Distinct(ids: seq<nat>) {
    forall i, j :: 0 <= i < j < |ids| ==> ids[i] != ids[j]
  }

  lemma {:induction false} WithoutDistinct(lru: seq<nat>, id: nat)
    requires Distinct(lru)
    ensures Distinct(Without(lru, id))
  {
    if lru != [] {
      var init, last := lru[..|lru| - 1], lru[|lru| - 1];
      WithoutDistinct(init, id);
      var rest := Without(init, id);
      assert forall x :: x in init ==> x != last;
      assert forall k :: 0 <= k < |rest| ==> rest[k] in rest;
    }
  }

  function Held(held: map<nat, nat>, id: nat): nat {
    if id in held then held[id] else 0
  }

  /** Handles, the list and the references that callers hold.  A handle lives as
      long as the list or a caller refers to it; its deleter has run exactly if it
      lives no more; usage is the charge of all that live. */
  ghost predicate CoreOk(info: map<nat, Info>, refs: map<nat, nat>, lru: seq<nat>, held: map<nat, nat>, usage: nat,
                         deleted: seq<nat>, next: nat)
  {
    && Distinct(lru) && (forall id :: id in lru ==> id in info)
    && refs.Keys == info.Keys
    && (forall id :: id in info ==> refs[id] == (if id in lru then 1 else 0) + Held(held, id) && refs[id] > 0)
    && (forall id :: id in held && held[id] > 0 ==> id in info)
    && usage == Total(info)
    && Distinct(deleted)
    && (forall id: nat :: id < next <==> id in info || id in deleted)
    && (forall id :: id in info ==> id !in deleted)
  }

  /** The list gives up its reference: the handle lives on only if it is held. */
  lemma DropOk(info: map<nat, Info>, refs: map<nat, nat>, lru: seq<nat>, held: map<nat, nat>, usage: nat,
               deleted: seq<nat>,
               next: nat, id: nat, rest: seq<nat>)
    requires CoreOk(info, refs, lru, held, usage, deleted, next) && id in lru
    requires Distinct(rest) && forall x :: x in rest <==> x in lru && x != id
    ensures id in info && id in refs && refs[id] > 0
    ensures usage >= info[id].charge && (refs[id] == 1 <==> Held(held, id) == 0)
    ensures if refs[id] == 1
            then CoreOk(info - {id}, refs - {id}, rest, held, usage - info[id].charge, deleted + [id], next)
            else CoreOk(info, refs[id := refs[id] - 1], rest, held, usage, deleted, next)
  {
    hide Total;
    TotalWithout(info, id);
  }

  lemma DropFromList(info: map<nat, Info>, refs: map<nat, nat>, lru: seq<nat>, held: map<nat, nat>, usage: nat,
                     deleted: seq<nat>, next: nat, id: nat)
    requires CoreOk(info, refs, lru, held, usage, deleted, next) && id in lru
    ensures id in info && id in refs && refs[id] > 0
    ensures usage >= info[id].charge && (refs[id] == 1 <==> Held(held, id) == 0)
    ensures if refs[id] == 1
            then CoreOk(info - {id}, refs - {id}, Without(lru, id), held, usage - info[id].charge, deleted + [id], next)
            else CoreOk(info, refs[id := refs[id] - 1], Without(lru, id), held, usage, deleted, next)
  {
    hide Without;
    WithoutDistinct(lru, id);
    DropOk(info, refs, lru, held, usage, deleted, next, id, Without(lru, id));
  }

  /** A caller gives up a reference. */
  lemma ReleaseOk(info: map<nat, Info>, refs: map<nat, nat>, lru: seq<nat>, held: map<nat, nat>, usage: nat,
                  deleted: seq<nat>,
                  next: nat, id: nat)
    requires CoreOk(info, refs, lru, held, usage, deleted, next) && Held(held, id) > 0
    ensures id in info && id in refs && id in held && refs[id] > 0
    ensures usage >= info[id].charge && (refs[id] == 1 <==> id !in lru && held[id] == 1)
    ensures var held' := held[id := held[id] - 1];
            if refs[id] == 1 then CoreOk(info - {id}, refs - {id}, lru, held', usage - info[id].charge, deleted + [id],
                                         next)
            else CoreOk(info, refs[id := refs[id] - 1], lru, held', usage, deleted, next)
  {
    TotalWithout(info, id);
  }

  /** A caller gets a reference; the list may change its order. */
  lemma TouchOk(info: map<nat, Info>, refs: map<nat, nat>, lru: seq<nat>, held: map<nat, nat>, usage: nat,
                deleted: seq<nat>,
                next: nat, id: nat, lru': seq<nat>)
    requires CoreOk(info, refs, lru, held, usage, deleted, next) && id in lru
    requires Distinct(lru') && forall x :: x in lru' <==> x in lru
    ensures id in refs
    ensures CoreOk(info, refs[id := refs[id] + 1], lru', held[id := Held(held, id) + 1], usage, deleted, next)
  {
    hide Total;
  }

  /** The handle that was looked up becomes the newest. */
  lemma TouchInList(info: map<nat, Info>, refs: map<nat, nat>, lru: seq<nat>, held: map<nat, nat>, usage: nat,
                    deleted: seq<nat>, next: nat, id: nat)
    requires CoreOk(info, refs, lru, held, usage, deleted, next) && id in lru
    ensures id in refs && forall x :: x in Without(lru, id) + [id] <==> x in lru
    ensures CoreOk(info, refs[id := refs[id] + 1], Without(lru, id) + [id], held[id := Held(held, id) + 1], usage,
                   deleted, next)
  {
    hide Without;
    MovedToBack(lru, id);
    TouchOk(info, refs, lru, held, usage, deleted, next, id, Without(lru, id) + [id]);
  }

  lemma MovedToBack(lru: seq<nat>, id: nat)
    requires Distinct(lru) && id in lru
    ensures Distinct(Without(lru, id) + [id]) && forall x :: x in Without(lru, id) + [id] <==> x in lru
  {
    WithoutDistinct(lru, id);
    var rest := Without(lru, id);
    assert forall k :: 0 <= k < |rest| ==> rest[k] in rest;
  }

  /** A new handle: one reference for the list, one for the caller. */
  lemma AddOk(info: map<nat, Info>, refs: map<nat, nat>, lru: seq<nat>, held: map<nat, nat>, usage: nat,
              deleted: seq<nat>,
              next: nat, i: Info)
    requires CoreOk(info, refs, lru, held, usage, deleted, next)
    ensures CoreOk(info[next := i], refs[next := 2], lru + [next], held[next := 1], usage + i.charge, deleted, next + 1)
  {
    assert next !in info && next !in lru && next !in deleted;
    TotalWith(info, next, i);
    assert forall k :: 0 <= k < |lru| ==> lru[k] in lru;
  }

  /** The hash table and the list hold the same handles. */
  ghost predicate SameEntries(ns: set<Node>, info: map<nat, Info>, lru: seq<nat>) {
    && (forall n :: n in ns ==> n.id in lru && n.id in info && n.key == info[n.id].key && n.hash == info[n.id].hash)
    && (forall id :: id in lru ==> id in info && Node(info[id].key, info[id].hash, id) in ns)
    && (forall x, y :: x in ns && y in ns && x.key == y.key ==> x == y)
  }

  /** A new node replaces the one of its key, in the table and in the list. */
  lemma SameAfterInsert(ns: set<Node>, info: map<nat, Info>, lru: seq<nat>, id: nat, i: Info, previous: Option<Node>,
                        info': map<nat, Info>, lru': seq<nat>)
    requires SameEntries(ns, info, lru) && Finds(ns, i.key, previous) && id !in lru && id in info' && info'[id] == i
    requires forall x :: x in lru' <==> x == id || (x in lru && (previous.Some? ==> x != previous.value.id))
    requires forall x :: x in lru' && x != id ==> x in info' && info'[x] == info[x]
    ensures SameEntries(WithoutKey(ns, i.key) + {Node(i.key, i.hash, id)}, info', lru')
  {
    forall x | x in lru' && x != id
      ensures Node(info[x].key, info[x].hash, x) in WithoutKey(ns, i.key)
    {
      assert Node(info[x].key, info[x].hash, x) in ns;
    }
    forall n | n in WithoutKey(ns, i.key)
      ensures n.id in lru' && n.id != id
    {
      assert n in ns && n.key == info[n.id].key;
    }
  }

  lemma SameAfterRemove(ns: set<Node>, info: map<nat, Info>, lru: seq<nat>, id: nat, info': map<nat, Info>,
                        lru': seq<nat>)
    requires SameEntries(ns, info, lru) && id in lru
    requires forall x :: x in lru' <==> x in lru && x != id
    requires forall x :: x in lru' ==> x in info' && info'[x] == info[x]
    ensures SameEntries(WithoutKey(ns, info[id].key), info', lru')
  {
    var own := Node(info[id].key, info[id].hash, id);
    assert own in ns;
    forall x | x in lru'
      ensures Node(info[x].key, info[x].hash, x) in WithoutKey(ns, info[id].key)
    {
      assert Node(info[x].key, info[x].hash, x) in ns;
    }
    forall n | n in WithoutKey(ns, info[id].key)
      ensures n.id in lru'
    {
      assert n in ns;
    }
  }

  lemma SameHash(ns: set<Node>, info: map<nat, Info>, lru: seq<nat>, hasher: Key -> nat, key: Key)
    requires SameEntries(ns, info, lru) && forall id :: id in info ==> info[id].hash == hasher(info[id].key)
    ensures Hashed(ns, key, hasher(key))
  {
  }

  lemma {:induction false} WithoutMiddle(a: seq<nat>, id: nat, b: seq<nat>)
    requires id !in a && id !in b
    ensures Without(a + [id] + b, id) == a + b
    decreases |b|
  {
    if b == [] {
      assert (a + [id] + b)[..|a|] == a;
      NothingWithout(a, id);
      assert a + b == a;
    } else {
      var init := b[..|b| - 1];
      WithoutMiddle(a, id, init);
      assert (a + [id] + b)[..|a| + |b|] == a + [id] + init;
    }
  }

  /** The handles that some caller holds. */
  function HeldOnly(lru: seq<nat>, held: map<nat, nat>): (r: seq<nat>)
    ensures forall x :: x in r ==> x in lru
  {
    if lru == [] then []
    else
      var rest := HeldOnly(lru[..|lru| - 1], held);
      if Held(held, lru[|lru| - 1]) > 0 then rest + [lru[|lru| - 1]] else rest
  }

  /** The handles that nobody holds. */
  function Unheld(ids: seq<nat>, held: map<nat, nat>): (r: seq<nat>) {
    if ids == [] then []
    else Unheld(ids[..|ids| - 1], held) + (if Held(held, ids[|ids| - 1]) == 0 then [ids[|ids| - 1]] else [])
  }

  lemma UnheldOneMore(ids: seq<nat>, held: map<nat, nat>, id: nat)
    ensures Unheld(ids + [id], held) == Unheld(ids, held) + (if Held(held, id) == 0 then [id] else [])
    ensures SetOf(Unheld(ids + [id], held)) == SetOf(Unheld(ids, held)) + (if Held(held, id) == 0 then {id} else {})
  {
    assert (ids + [id])[..|ids|] == ids;
  }

  function SetOf(ids: seq<nat>): set<nat> {
    set id | id in ids
  }

  function Ids(o: Option<nat>): seq<nat> {
    if o.Some? then [o.value] else []
  }

  /** The charge that goes with a handle when it leaves the list. */
  function Freed(info: map<nat, Info>, held: map<nat, nat>, id: nat): nat {
    if id in info && Held(held, id) == 0 then info[id].charge else 0
  }

  /** From the list `all` the handles `gone` were evicted, oldest first.  Those of them,
      and of `first`, that nobody holds were deleted; and the last eviction was needed. */
  ghost predicate Shrunk(info1: map<nat, Info>, before: seq<nat>, all: seq<nat>, held: map<nat, nat>, first: seq<nat>,
                         gone: seq<nat>, lru: seq<nat>, deleted: seq<nat>, info: map<nat, Info>, usage: nat,
                             capacity: nat)
  {
    && gone + lru == all && deleted == before + Unheld(first + gone, held)
    && info == info1 - SetOf(Unheld(first + gone, held))
    && (gone != [] ==> usage + Freed(info1, held, gone[|gone| - 1]) > capacity)
  }

  lemma ShrinkStep(info1: map<nat, Info>, before: seq<nat>, all: seq<nat>, held: map<nat, nat>, first: seq<nat>,
                   gone: seq<nat>,
                   lru: seq<nat>, deleted: seq<nat>, info: map<nat, Info>, usage: nat, capacity: nat,
                   lru': seq<nat>, deleted': seq<nat>, info': map<nat, Info>, usage': nat)
    requires Shrunk(info1, before, all, held, first, gone, lru, deleted, info, usage, capacity)
    requires usage > capacity && lru != [] && lru[0] in info && lru' == lru[1..]
    requires deleted' == deleted + (if Held(held, lru[0]) == 0 then [lru[0]] else [])
    requires info' == (if Held(held, lru[0]) == 0 then info - {lru[0]} else info)
             && usage' + Freed(info, held, lru[0]) == usage
    ensures Shrunk(info1, before, all, held, first, gone + [lru[0]], lru', deleted', info', usage', capacity)
  {
    hide Unheld, SetOf;
    UnheldOneMore(first + gone, held, lru[0]);
    assert first + (gone + [lru[0]]) == first + gone + [lru[0]];
    assert gone + [lru[0]] + lru[1..] == gone + lru;
  }

  /** The handle of the key in the list, if there is one. */
  ghost predicate IsHandleOf(info: map<nat, Info>, lru: seq<nat>, key: Key, r: Option<nat>) {
    if r.Some? then r.value in lru && r.value in info && info[r.value].key == key
    else forall id :: id in lru && id in info ==> info[id].key != key
  }

  lemma TableFinds(ns: set<Node>, info: map<nat, Info>, lru: seq<nat>, key: Key, n: Option<Node>)
    requires SameEntries(ns, info, lru) && Finds(ns, key, n)
    ensures IsHandleOf(info, lru, key, if n.Some? then Some(n.value.id) else None)
  {
    assert forall id :: id in lru && id in info ==> Node(info[id].key, info[id].hash, id) in ns;
  }

  lemma PreviousListed(info: map<nat, Info>, lru: seq<nat>, key: Key, n: Option<Node>)
    requires IsHandleOf(info, lru, key, if n.Some? then Some(n.value.id) else None)
    ensures n.Some? ==> n.value.id in lru
  {
  }

  /** Table and list agree again after an insertion. */
  lemma AfterAdd(ns: set<Node>, info: map<nat, Info>, lru: seq<nat>, id: nat, i: Info, node: Option<Node>,
                 held: map<nat, nat>,
                 info': map<nat, Info>, lru': seq<nat>)
    requires SameEntries(ns, info, lru) && Finds(ns, i.key, node) && id !in lru && Held(held, id) > 0
    requires node.Some? ==> node.value.id in lru
    requires lru' == Without(lru, if node.Some? then node.value.id else id) + [id]
    requires info' == info[id := i] - SetOf(Unheld(Ids(if node.Some? then Some(node.value.id) else None), held))
    ensures SameEntries(WithoutKey(ns, i.key) + {Node(i.key, i.hash, id)}, info', lru')
  {
    hide Without, Finds;
    if node.Some? {
      UnheldOneMore([], held, node.value.id);
      assert [] + [node.value.id] == [node.value.id];
    }
    SameAfterInsert(ns, info, lru, id, i, node, info', lru');
  }

  class LRUCache {
    const hasher: Key -> nat
    const table: HandleTable
    var capacity: nat
    var usage: nat
    var lru: seq<nat>
    var info: map<nat, Info>
    var refs: map<nat, nat>
    var next: nat
    ghost var held: map<nat, nat>
    ghost var deleted: seq<nat>

    ghost predicate Core()
      reads this
    {
      && CoreOk(info, refs, lru, held, usage, deleted, next)
      && (forall id :: id in info ==> info[id].hash == hasher(info[id].key))
    }

    ghost predicate Valid()
      reads this, table
    {
      Core() && table.Valid() && SameEntries(Nodes(table.list), info, lru)
    }

    constructor (hasher: Key -> nat, capacity: nat)
      ensures Valid() && usage == 0 && lru == [] && deleted == [] && fresh(table)
    {
      this.hasher, this.capacity, usage, lru, info, refs, next := hasher, capacity, 0, [], map[], map[], 0;
      held, deleted := map[], [];
      table := new HandleTable();
    }

    /** LRU_Remove followed by Unref of the cache's own reference. */
    method Drop(id: nat)
      requires Core() && id in lru
      modifies this
      ensures Core() && lru == Without(old(lru), id) && held == old(held) && next == old(next)
              && capacity == old(capacity)
      ensures deleted == old(deleted) + (if Held(held, id) == 0 then [id] else [])
      ensures info == if Held(held, id) == 0 then old(info) - {id} else old(info)
      ensures id in old(info) && usage + Freed(old(info), held, id) == old(usage)
    {
      hide CoreOk, Without;
      DropFromList(info, refs, lru, held, usage, deleted, next, id);
      lru := Without(lru, id);
      if refs[id] == 1 {
        usage := usage - info[id].charge;
        info, refs := info - {id}, refs - {id};
        deleted := deleted + [id];
      } else {
        refs := refs[id := refs[id] - 1];
      }
    }

    /** Release: a caller gives back a handle that it got from Insert or Lookup. */
    method Release(id: nat)
      requires Valid() && Held(held, id) > 0
      modifies this
      ensures Valid() && lru == old(lru) && held == old(held)[id := Held(old(held), id) - 1]
      ensures deleted == old(deleted) + (if id !in lru && Held(old(held), id) == 1 then [id] else [])
    {
      hide CoreOk;
      ReleaseOk(info, refs, lru, held, usage, deleted, next, id);
      held := held[id := held[id] - 1];
      if refs[id] == 1 {
        usage := usage - info[id].charge;
        info, refs := info - {id}, refs - {id};
        deleted := deleted + [id];
      } else {
        refs := refs[id := refs[id] - 1];
      }
    }

    /** Lookup: the handle of the key, now the most recently used. */
    method Lookup(key: Key) returns (r: Option<nat>)
      requires Valid()
      modifies this
      ensures Valid() && deleted == old(deleted) && info == old(info)
      ensures match r
              case None => lru == old(lru) && held == old(held) && forall id :: id in lru ==> info[id].key != key
              case Some(id) => id in old(lru) && info[id].key == key && lru == Without(old(lru), id) + [id]
                               && held == old(held)[id := Held(old(held), id) + 1]
    {
      hide CoreOk, Without, TableOk;
      var n := table.Lookup(key, hasher(key));
      if n.None? {
        assert forall id :: id in lru ==> Node(info[id].key, info[id].hash, id) in Nodes(table.list);
        return None;
      }
      var id := n.value.id;
      TouchInList(info, refs, lru, held, usage, deleted, next, id);
      refs := refs[id := refs[id] + 1];
      held := held[id := Held(held, id) + 1];
      lru := Without(lru, id) + [id];
      r := Some(id);
    }

    /** Out of the table, out of the list, and unreferenced. */
    method Evict(id: nat)
      requires Valid() && id in lru
      modifies this, table
      ensures Valid() && lru == Without(old(lru), id) && held == old(held) && next == old(next)
              && capacity == old(capacity)
      ensures deleted == old(deleted) + (if Held(held, id) == 0 then [id] else [])
      ensures info == if Held(held, id) == 0 then old(info) - {id} else old(info)
      ensures id in old(info) && usage + Freed(old(info), held, id) == old(usage)
    {
      hide CoreOk, Without, TableOk;
      ghost var ns, before, order := Nodes(table.list), info, lru;
      InfoOf(info, refs, lru, held, usage, deleted, next, id);
      SameHash(ns, info, lru, hasher, info[id].key);
      var n := table.Remove(info[id].key, info[id].hash);
      Drop(id);
      SameAfterRemove(ns, before, order, id, info, lru);
    }

    /** Insert: the new handle is the newest; the old handle of the key goes; then the
        oldest go, one by one, only as long as the cache is over its capacity.  What
        goes and is held by nobody is deleted. */
    method Insert(key: Key, value: int, charge: nat)
        returns (id: nat, ghost previous: Option<nat>, ghost gone: seq<nat>)
      requires Valid()
      modifies this, table
      ensures Valid() && id == old(next) && next == id + 1 && held == old(held)[id := 1] && capacity == old(capacity)
      ensures IsHandleOf(old(info), old(lru), key, previous)
      ensures usage <= capacity || lru == []
      ensures Shrunk(old(info)[id := Info(key, hasher(key), value, charge)], old(deleted),
                     Without(old(lru), if previous.Some? then previous.value else id) + [id], held, Ids(previous), gone,
                     lru, deleted, info, usage, capacity)
    {
      hide CoreOk, Without, TableOk, SameEntries, Total, Shrunk;
      var i := Info(key, hasher(key), value, charge);
      previous := Add(i);
      id := next - 1;
      ghost var all := Without(old(lru), if previous.Some? then previous.value else id) + [id];
      gone := EvictOverflow(old(info)[id := i], old(deleted), all, Ids(previous));
    }

    /** The loop of Insert. */
    method EvictOverflow(ghost info1: map<nat, Info>, ghost before: seq<nat>, ghost all: seq<nat>,
                         ghost first: seq<nat>)
      returns (ghost gone: seq<nat>)
      requires Valid() && Shrunk(info1, before, all, held, first, [], lru, deleted, info, usage, capacity)
      modifies this, table
      ensures Valid() && held == old(held) && next == old(next) && capacity == old(capacity)
      ensures Shrunk(info1, before, all, held, first, gone, lru, deleted, info, usage, capacity)
      ensures usage <= capacity || lru == []
    {
      hide CoreOk, Without, TableOk, SameEntries, Total, Shrunk;
      gone := [];
      while usage > capacity && lru != []
        invariant Valid() && held == old(held) && next == old(next) && capacity == old(capacity)
        invariant Shrunk(info1, before, all, held, first, gone, lru, deleted, info, usage, capacity)
        decreases |lru|
      {
        FirstGone(info, refs, lru, held, usage, deleted, next);
        var oldest := lru[0];
        InfoOf(info, refs, lru, held, usage, deleted, next, oldest);
        ghost var u, l, d, m := usage, lru, deleted, info;
        Evict(oldest);
        ShrinkStep(info1, before, all, held, first, gone, l, d, m, u, capacity, lru, deleted, info, usage);
        gone := gone + [oldest];
      }
    }

    method Add(i: Info) returns (ghost previous: Option<nat>)
      requires Valid() && i.hash == hasher(i.key)
      modifies this, table
      ensures Valid() && next == old(next) + 1 && held == old(held)[old(next) := 1] && capacity == old(capacity)
      ensures IsHandleOf(old(info), old(lru), i.key, previous)
      ensures Shrunk(old(info)[old(next) := i], old(deleted),
                     Without(old(lru), if previous.Some? then previous.value else old(next)) + [old(next)], held,
                         Ids(previous), [],
                     lru, deleted, info, usage, capacity)
    {
      hide CoreOk, Without, TableOk, Total, Unheld, SetOf, SameEntries, Finds, IsHandleOf, Ids, WithoutKey, Nodes;
      ghost var ns, before, order := Nodes(table.list), info, lru;
      NewId(info, refs, lru, held, usage, deleted, next);
      SameHash(ns, info, lru, hasher, i.key);
      var id := Append(i);
      var node := table.Insert(Node(i.key, i.hash, id));
      TableFinds(ns, before, order, i.key, node);
      PreviousListed(before, order, i.key, node);
      previous := DropPrevious(node);
      if node.Some? {
        WithoutLast(order, id, node.value.id);
      } else {
        NothingWithout(order, id);
      }
      assert Ids(previous) + [] == Ids(previous);
      AfterAdd(ns, before, order, id, i, node, held, info, lru);
    }

    /** The node that the table replaced leaves the list. */
    method DropPrevious(node: Option<Node>) returns (ghost previous: Option<nat>)
      requires Core() && (node.Some? ==> node.value.id in lru)
      modifies this
      ensures Core() && held == old(held) && next == old(next) && capacity == old(capacity)
      ensures previous == if node.Some? then Some(node.value.id) else None
      ensures lru == if node.Some? then Without(old(lru), node.value.id) else old(lru)
      ensures deleted == old(deleted) + Unheld(Ids(previous), held)
              && info == old(info) - SetOf(Unheld(Ids(previous), held))
    {
      hide CoreOk, Without, Total;
      previous := None;
      if node.Some? {
        previous := Some(node.value.id);
        UnheldOneMore([], held, node.value.id);
        assert [] + [node.value.id] == [node.value.id];
        Drop(node.value.id);
      }
    }

    /** The new handle, at the back of the list. */
    method Append(i: Info) returns (id: nat)
      requires Core() && i.hash == hasher(i.key)
      modifies this
      ensures Core() && id == old(next) && next == id + 1 && held == old(held)[id := 1] && capacity == old(capacity)
      ensures info == old(info)[id := i] && lru == old(lru) + [id] && deleted == old(deleted)
    {
      hide CoreOk;
      id := next;
      AddOk(info, refs, lru, held, usage, deleted, next, i);
      info, refs, lru := info[id := i], refs[id := 2], lru + [id];
      held, usage, next := held[id := 1], usage + i.charge, next + 1;
    }

    /** Erase: the handle of the key leaves the cache. */
    method Erase(key: Key) returns (ghost gone: Option<nat>)
      requires Valid()
      modifies this, table
      ensures Valid() && held == old(held) && IsHandleOf(old(info), old(lru), key, gone)
      ensures lru == if gone.Some? then Without(old(lru), gone.value) else old(lru)
      ensures deleted == old(deleted) + Unheld(Ids(gone), held)
    {
      hide CoreOk, Without, TableOk, Total;
      var n := table.Lookup(key, hasher(key));
      TableFinds(Nodes(table.list), info, lru, key, n);
      gone := None;
      if n.Some? {
        gone := Some(n.value.id);
        UnheldOneMore([], held, n.value.id);
        assert [] + [n.value.id] == [n.value.id];
        Evict(n.value.id);
      }
    }

    /** Prune: only handles that callers hold stay, in their order. */
    method Prune()
      requires Valid()
      modifies this, table
      ensures Valid() && held == old(held) && lru == HeldOnly(old(lru), held)
      ensures deleted == old(deleted) + Unheld(old(lru), held)
    {
      hide CoreOk, Without, TableOk, SameEntries, Pruned, HeldOnly, Unheld;
      ghost var order, before, k: nat := lru, deleted, 0;
      var i: nat := 0;
      PruneStart(order, held, before);
      while i < |lru|
        invariant Valid() && held == old(held) && k <= |order| && Pruned(order, held, k, i, lru, before, deleted)
        decreases |order| - k
      {
        i := PruneOne(i, order, before, k);
        k := k + 1;
      }
      PruneEnd(order, held, k, i, lru, before, deleted);
    }

    method PruneOne(i: nat, ghost order: seq<nat>, ghost before: seq<nat>, ghost k: nat) returns (i': nat)
      requires Valid() && k <= |order| && Pruned(order, held, k, i, lru, before, deleted) && i < |lru|
      modifies this, table
      ensures Valid() && held == old(held) && k < |order| && Pruned(order, held, k + 1, i', lru, before, deleted)
    {
      hide CoreOk, Without, TableOk, SameEntries, HeldOnly, Unheld;
      PruneStep(info, refs, lru, held, usage, deleted, next, order, k);
      UnheldOneMore(order[..k], held, order[k]);
      assert order[..k] + [order[k]] == order[..k + 1];
      var id := lru[i];
      i' := i;
      if refs[id] == 1 {
        Evict(id);
      } else {
        i' := i + 1;
        assert HeldOnly(order[..k], held) + order[k..] == HeldOnly(order[..k], held) + [id] + order[k + 1..];
      }
    }
  }

  /** The walk of Prune before position `k` of the list it started with. */
  ghost predicate Pruned(order: seq<nat>, held: map<nat, nat>, k: nat, i: nat, lru: seq<nat>, before: seq<nat>,
                         deleted: seq<nat>)
    requires k <= |order|
  {
    && i == |HeldOnly(order[..k], held)| && lru == HeldOnly(order[..k], held) + order[k..]
    && deleted == before + Unheld(order[..k], held)
  }

  lemma PruneStart(order: seq<nat>, held: map<nat, nat>, before: seq<nat>)
    ensures Pruned(order, held, 0, 0, order, before, before)
  {
    assert order[..0] == [] && [] + order[0..] == order;
  }

  lemma PruneEnd(order: seq<nat>, held: map<nat, nat>, k: nat, i: nat, lru: seq<nat>, before: seq<nat>,
                 deleted: seq<nat>)
    requires k <= |order| && Pruned(order, held, k, i, lru, before, deleted) && i >= |lru|
    ensures lru == HeldOnly(order, held) && deleted == before + Unheld(order, held)
  {
    assert k == |order| && order[..k] == order;
  }

  lemma InfoOf(info: map<nat, Info>, refs: map<nat, nat>, lru: seq<nat>, held: map<nat, nat>, usage: nat,
               deleted: seq<nat>,
               next: nat, id: nat)
    requires CoreOk(info, refs, lru, held, usage, deleted, next) && id in lru
    ensures id in info
  {
  }

  lemma NewId(info: map<nat, Info>, refs: map<nat, nat>, lru: seq<nat>, held: map<nat, nat>, usage: nat,
              deleted: seq<nat>, next: nat)
    requires CoreOk(info, refs, lru, held, usage, deleted, next)
    ensures next !in info && next !in lru
  {
  }

  lemma FirstGone(info: map<nat, Info>, refs: map<nat, nat>, lru: seq<nat>, held: map<nat, nat>, usage: nat,
                  deleted: seq<nat>,
                  next: nat)
    requires CoreOk(info, refs, lru, held, usage, deleted, next) && lru != []
    ensures Without(lru, lru[0]) == lru[1..]
  {
    hide Without;
    WithoutMiddle([], lru[0], lru[1..]);
    assert [] + [lru[0]] + lru[1..] == lru && [] + lru[1..] == lru[1..];
  }

  lemma WithoutLast(order: seq<nat>, id: nat, p: nat)
    requires id != p
    ensures Without(order + [id], p) == Without(order, p) + [id]
  {
    assert (order + [id])[..|order|] == order;
  }

  /** The next handle of the walk: it stays if it is held, else only it goes. */
  lemma PruneStep(info: map<nat, Info>, refs: map<nat, nat>, lru: seq<nat>, held: map<nat, nat>, usage: nat,
                  deleted: seq<nat>,
                  next: nat, order: seq<nat>, k: nat)
    requires CoreOk(info, refs, lru, held, usage, deleted, next) && k <= |order|
    requires var kept := HeldOnly(order[..k], held); lru == kept + order[k..] && |kept| < |lru|
    ensures k < |order|
    ensures var kept, id := HeldOnly(order[..k], held), order[k];
            && lru[|kept|] == id && id in refs
            && (refs[id] == 1 <==> Held(held, id) == 0)
            && HeldOnly(order[..k + 1], held) == (if Held(held, id) == 0 then kept else kept + [id])
            && Without(lru, id) == kept + order[k + 1..]
  {
    hide Without, CoreOk, HeldOnly;
    var kept, id, rest := HeldOnly(order[..k], held), order[k], order[k + 1..];
    HeldOneMore(order, held, k);
    assert lru == kept + [id] + rest;
    assert lru[|kept|] == id;
    Listed(info, refs, lru, held, usage, deleted, next, id);
    Apart(kept, id, rest);
    WithoutMiddle(kept, id, rest);
  }

  lemma HeldOneMore(order: seq<nat>, held: map<nat, nat>, k: nat)
    requires k < |order|
    ensures HeldOnly(order[..k + 1], held) == HeldOnly(order[..k],
                                                       held) + (if Held(held, order[k]) == 0 then [] else [order[k]])
  {
    assert order[..k + 1][..k] == order[..k];
  }

  lemma Listed(info: map<nat, Info>, refs: map<nat, nat>, lru: seq<nat>, held: map<nat, nat>, usage: nat,
               deleted: seq<nat>,
               next: nat, id: nat)
    requires CoreOk(info, refs, lru, held, usage, deleted, next) && id in lru
    ensures Distinct(lru) && id in refs && refs[id] == 1 + Held(held, id)
  {
    hide Total;
  }

  lemma Apart(a: seq<nat>, id: nat, b: seq<nat>)
    requires Distinct(a + [id] + b)
    ensures id !in a && id !in b
  {
    var all := a + [id] + b;
    assert all[|a|] == id;
    forall x | 0 <= x < |a|
      ensures a[x] != id
    {
      assert all[x] == a[x];
    }
    forall x | 0 <= x < |b|
      ensures b[x] != id
    {
      assert all[|a| + 1 + x] == b[x];
    }
  }

  lemma {:induction false} NothingWithout(lru: seq<nat>, id: nat)
    requires id !in lru
    ensures Without(lru, id) == lru
  {
    if lru != [] {
      NothingWithout(lru[..|lru| - 1], id);
    }
  }
}
