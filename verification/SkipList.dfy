/** The skip list under one writer and any number of readers (db/skiplist.h),
    interleaved at single pointer loads and stores. */
module SkipList {
  import opened Format

  const MAX_HEIGHT := 12

  type Key = int

  /** Node 0 is the head; its key is never looked at. */
  datatype Node = Node(key: Key, next: seq<Option<nat>>)

  datatype List = List(nodes: seq<Node>, maxHeight: nat)

  /** A search for the first node at or after `bound`; None is past every key. */
  datatype Search = Search(bound: Option<Key>, x: nat, level: nat)

  /** What a finished search returns: the node before the bound and the one at or
      after it.  `began` and `seen` are the nodes of the list when the search began
      and at its last load. */
  datatype Reader =
    | Running(search: Search, began: set<nat>)
    | Done(bound: Option<Key>, before: nat, atOrAfter: Option<nat>, began: set<nat>, seen: set<nat>)

  datatype Writer =
    | Idle
    | Finding(key: Key, search: Search, prev: map<nat, nat>)
    | Placed(key: Key, prev: map<nat, nat>)
    | Linking(key: Key, prev: map<nat, nat>, node: nat, i: nat, stored: bool)

  /** `members[l]` is the set of nodes linked at level `l`. */
  datatype Sys = Sys(list: List, members: seq<set<nat>>, writer: Writer, readers: seq<Reader>)

  datatype Step =
    | StartInsert(key: Key) | WriterLoad | Allocate(height: nat) | StoreNext | Publish
    | StartSearch(bound: Option<Key>) | ReaderLoad(index: nat)

  // ----- one load of a search

  predicate Before(nodes: seq<Node>, n: nat, bound: Option<Key>)
    requires n < |nodes|
  {
    bound.None? || nodes[n].key < bound.value
  }

  predicate CanLoad(nodes: seq<Node>, s: Search) {
    && s.x < |nodes| && s.level < |nodes[s.x].next|
    && (nodes[s.x].next[s.level].Some? ==> nodes[s.x].next[s.level].value < |nodes|)
  }

  function Loaded(nodes: seq<Node>, s: Search): Option<nat>
    requires CanLoad(nodes, s)
  {
    nodes[s.x].next[s.level]
  }

  /** KeyIsAfterNode on the loaded pointer: keep going right. */
  predicate GoesRight(nodes: seq<Node>, s: Search)
    requires CanLoad(nodes, s)
  {
    Loaded(nodes, s).Some? && Before(nodes, Loaded(nodes, s).value, s.bound)
  }

  // ----- steps

  ghost predicate Next(s: Sys, step: Step, s': Sys) {
    match step
    case StartSearch(bound) =>
      && |s.members| == MAX_HEIGHT && s.list.maxHeight >= 1
      && s' == s.(readers := s.readers + [Running(Search(bound, 0, s.list.maxHeight - 1), s.members[0])])
    case ReaderLoad(r) => ReaderNext(s, r, s')
    case _ => s'.readers == s.readers && WriterNext(s, step, s')
  }

  ghost predicate ReaderNext(s: Sys, r: nat, s': Sys) {
    && r < |s.readers| && s.readers[r].Running? && CanLoad(s.list.nodes, s.readers[r].search)
       && |s.members| == MAX_HEIGHT
    && var nodes, q, began := s.list.nodes, s.readers[r].search, s.readers[r].began;
       s' == s.(readers := s.readers[r :=
         if GoesRight(nodes, q) then Running(q.(x := Loaded(nodes, q).value), began)
         else if q.level > 0 then Running(q.(level := q.level - 1), began)
         else Done(q.bound, q.x, Loaded(nodes, q), began, s.members[0])])
  }

  /** Insert. */
  ghost predicate WriterNext(s: Sys, step: Step, s': Sys) {
    var nodes, w := s.list.nodes, s.writer;
    match step
    case StartInsert(key) =>
      && w.Idle? && |s.members| == MAX_HEIGHT && s.list.maxHeight >= 1
      && (forall m :: m in s.members[0] && m < |nodes| ==> nodes[m].key != key)
      && s' == s.(writer := Finding(key, Search(Some(key), 0, s.list.maxHeight - 1), map[]))
    case WriterLoad =>
      && w.Finding? && CanLoad(nodes, w.search)
      && s' == s.(writer :=
           if GoesRight(nodes, w.search) then w.(search := w.search.(x := Loaded(nodes, w.search).value))
           else
             var prev := w.prev[w.search.level := w.search.x];
             if w.search.level > 0 then Finding(w.key, w.search.(level := w.search.level - 1), prev) else Placed(w.key,
                     prev))
    case Allocate(height) =>
      && w.Placed? && 1 <= height <= MAX_HEIGHT
      && var prev := HeadFrom(w.prev, s.list.maxHeight, height);
         var max := if height > s.list.maxHeight then height else s.list.maxHeight;
         s' == s.(list := List(nodes + [Node(w.key, seq(height, _ => None))], max),
                  writer := Linking(w.key, prev, |nodes|, 0, false))
    case StoreNext =>
      && w.Linking? && !w.stored && w.i in w.prev
      && CanStore(nodes, w.node, w.i) && CanStore(nodes, w.prev[w.i], w.i)
      && s' == s.(list := s.list.(nodes := SetNext(nodes, w.node, w.i, nodes[w.prev[w.i]].next[w.i])),
                  writer := w.(stored := true))
    case Publish =>
      && w.Linking? && w.stored && w.i in w.prev && CanStore(nodes, w.node, w.i) && CanStore(nodes, w.prev[w.i], w.i)
      && w.i < |s.members|
      && s' == s.(list := s.list.(nodes := SetNext(nodes, w.prev[w.i], w.i, Some(w.node))),
                  members := s.members[w.i := s.members[w.i] + {w.node}],
                  writer := if w.i + 1 == |nodes[w.node].next| then Idle else w.(i := w.i + 1, stored := false))
    case _ => false
  }

  /** Levels above the old height start at the head. */
  function HeadFrom(prev: map<nat, nat>, lo: nat, hi: nat): (r: map<nat, nat>)
    ensures forall l :: l in r <==> l in prev || lo <= l < hi
    ensures forall l :: l in r ==> r[l] == if lo <= l < hi then 0 else prev[l]
    decreases hi - lo
  {
    if lo >= hi then prev else HeadFrom(prev, lo + 1, hi)[lo := 0]
  }

  predicate CanStore(nodes: seq<Node>, n: nat, l: nat) {
    n < |nodes| && l < |nodes[n].next|
  }

  function SetNext(nodes: seq<Node>, n: nat, l: nat, to: Option<nat>): (r: seq<Node>)
    requires CanStore(nodes, n, l)
    ensures |r| == |nodes| && forall x :: 0 <= x < |nodes| ==>
              r[x].key == nodes[x].key && |r[x].next| == |nodes[x].next|
  {
    nodes[n := nodes[n].(next := nodes[n].next[l := to])]
  }

  const NONE: seq<Option<nat>> := [None, None, None, None, None, None, None, None, None, None, None, None]
  const NO_MEMBERS: seq<set<nat>> := [{}, {}, {}, {}, {}, {}, {}, {}, {}, {}, {}, {}]

  const INIT := Sys(List([Node(0, NONE)], 1), NO_MEMBERS, Idle, [])

  // ----- the invariant

  predicate IsAfter(nodes: seq<Node>, m: nat, x: nat)
    requires m < |nodes| && x < |nodes|
  {
    x == 0 || nodes[x].key < nodes[m].key
  }

  /** `r` is the member with the least key after `x`. */
  ghost predicate IsSuccessor(nodes: seq<Node>, members: set<nat>, x: nat, r: Option<nat>)
    requires x < |nodes| && forall m :: m in members ==> m < |nodes|
  {
    match r
    case None => forall m :: m in members ==> !IsAfter(nodes, m, x)
    case Some(n) => n in members && IsAfter(nodes, n, x) && forall m :: m in members && IsAfter(nodes, m, x) ==>
                                                             nodes[n].key <= nodes[m].key
  }

  ghost predicate InList(nodes: seq<Node>, members: set<nat>) {
    forall m :: m in members ==> 0 < m < |nodes|
  }

  /** On the head or on a member. */
  predicate Linked(members: set<nat>, x: nat) {
    x == 0 || x in members
  }

  /** Every pointer at the level leads to the next member: the level is sorted and
      holds exactly its members. */
  ghost predicate LevelOk(nodes: seq<Node>, members: set<nat>, l: nat) {
    && InList(nodes, members)
    && forall x: nat :: Linked(members, x) ==> CanStore(nodes, x, l) && IsSuccessor(nodes, members, x, nodes[x].next[l])
  }

  ghost predicate KeysDiffer(nodes: seq<Node>, members: set<nat>) {
    forall a, b :: a in members && b in members && a != b && a < |nodes| && b < |nodes| ==> nodes[a].key != nodes[b].key
  }

  /** Every level is part of the level below. */
  ghost predicate Nested(members: seq<set<nat>>) {
    forall l :: 0 < l < |members| ==> members[l] <= members[l - 1]
  }

  ghost predicate ListOk(list: List, members: seq<set<nat>>) {
    && |members| == MAX_HEIGHT && 1 <= list.maxHeight <= MAX_HEIGHT && |list.nodes| > 0
    && (forall l :: 0 <= l < MAX_HEIGHT ==> LevelOk(list.nodes, members[l], l))
    && Nested(members)
    && (forall l :: list.maxHeight <= l < MAX_HEIGHT ==> members[l] == {})
    && KeysDiffer(list.nodes, members[0])
  }

  /** A search stands on the head or on a linked node before its bound. */
  ghost predicate SearchOk(nodes: seq<Node>, members: seq<set<nat>>, s: Search) {
    && s.level < |members| && s.x < |nodes|
    && (s.x != 0 ==> s.x in members[s.level] && Before(nodes, s.x, s.bound))
  }

  /** `p` is the last member before the key. */
  ghost predicate IsPredecessor(nodes: seq<Node>, members: set<nat>, key: Key, p: nat) {
    && p < |nodes| && InList(nodes, members)
    && (p == 0 || (p in members && nodes[p].key < key))
    && forall m :: m in members && nodes[m].key < key ==> p != 0 && nodes[m].key <= nodes[p].key
  }

  ghost predicate PrevOk(nodes: seq<Node>, members: seq<set<nat>>, key: Key, prev: map<nat, nat>, lo: nat, hi: nat) {
    hi <= |members| && forall l :: lo <= l < hi ==> l in prev && IsPredecessor(nodes, members[l], key, prev[l])
  }

  ghost predicate KeyIsNew(nodes: seq<Node>, members: set<nat>, key: Key) {
    forall m :: m in members && m < |nodes| ==> nodes[m].key != key
  }

  ghost predicate WriterOk(list: List, members: seq<set<nat>>, w: Writer)
    requires |members| == MAX_HEIGHT
  {
    match w
    case Idle => true
    case Finding(key, search, prev) =>
      && SearchOk(list.nodes, members, search) && search.bound == Some(key) && search.level < list.maxHeight
      && KeyIsNew(list.nodes, members[0], key)
      && PrevOk(list.nodes, members, key, prev, search.level + 1, list.maxHeight)
    case Placed(key, prev) =>
      && KeyIsNew(list.nodes, members[0], key) && PrevOk(list.nodes, members, key, prev, 0, list.maxHeight)
    case Linking(key, prev, node, i, stored) => LinkOk(list, members, key, prev, node, i, stored)
  }

  ghost predicate LinkOk(list: List, members: seq<set<nat>>, key: Key, prev: map<nat, nat>, node: nat, i: nat,
                         stored: bool)
    requires |members| == MAX_HEIGHT
  {
    && 0 < node < |list.nodes| && list.nodes[node].key == key
    && i < |list.nodes[node].next| <= list.maxHeight <= MAX_HEIGHT
    && (forall m :: m in members[0] && m != node && m < |list.nodes| ==> list.nodes[m].key != key)
    && (forall l :: 0 <= l < i ==> node in members[l])
    && (forall l :: i <= l < |members| ==> node !in members[l])
    && PrevOk(list.nodes, members, key, prev, i, |list.nodes[node].next|)
    && (stored ==> CanStore(list.nodes, prev[i], i) && list.nodes[node].next[i] == list.nodes[prev[i]].next[i])
  }

  /** What a finished search promises of the list at its last load. */
  ghost predicate Exact(nodes: seq<Node>, bound: Option<Key>, before: nat, atOrAfter: Option<nat>, seen: set<nat>) {
    && InList(nodes, seen)
    && (match atOrAfter
        case None => forall m :: m in seen ==> Before(nodes, m, bound)
        case Some(n) => n in seen && !Before(nodes, n, bound) &&
                        forall m :: m in seen && !Before(nodes, m, bound) ==> nodes[n].key <= nodes[m].key)
    && (if before == 0 then forall m :: m in seen ==> !Before(nodes, m, bound)
        else before in seen && Before(nodes, before, bound) &&
             forall m :: m in seen && Before(nodes, m, bound) ==> nodes[m].key <= nodes[before].key)
  }

  ghost predicate ReaderOk(nodes: seq<Node>, members: seq<set<nat>>, r: Reader)
    requires |members| == MAX_HEIGHT
  {
    match r
    case Running(search, began) => SearchOk(nodes, members, search) && began <= members[0]
    case Done(bound, before, atOrAfter, began, seen) =>
      began <= seen <= members[0] && Exact(nodes, bound, before, atOrAfter, seen)
  }

  ghost predicate SysOk(s: Sys) {
    && ListOk(s.list, s.members)
    && WriterOk(s.list, s.members, s.writer)
    && forall r :: 0 <= r < |s.readers| ==> ReaderOk(s.list.nodes, s.members, s.readers[r])
  }

  // ----- searches

  lemma CanAlwaysLoad(list: List, members: seq<set<nat>>, s: Search)
    requires ListOk(list, members) && SearchOk(list.nodes, members, s)
    ensures CanLoad(list.nodes, s)
    ensures IsSuccessor(list.nodes, members[s.level], s.x, Loaded(list.nodes, s))
  {
    assert LevelOk(list.nodes, members[s.level], s.level) && Linked(members[s.level], s.x);
  }

  lemma RightKeeps(list: List, members: seq<set<nat>>, s: Search)
    requires ListOk(list, members) && SearchOk(list.nodes, members, s) && CanLoad(list.nodes, s)
             && GoesRight(list.nodes, s)
    ensures SearchOk(list.nodes, members, s.(x := Loaded(list.nodes, s).value))
  {
    CanAlwaysLoad(list, members, s);
  }

  lemma DownKeeps(list: List, members: seq<set<nat>>, s: Search)
    requires ListOk(list, members) && SearchOk(list.nodes, members, s) && s.level > 0
    ensures SearchOk(list.nodes, members, s.(level := s.level - 1))
  {
    assert members[s.level] <= members[s.level - 1];
  }

  /** A search that cannot go right stands just before its bound. */
  lemma StopsAtBound(list: List, members: seq<set<nat>>, s: Search)
    requires ListOk(list, members) && SearchOk(list.nodes, members, s) && CanLoad(list.nodes, s)
             && !GoesRight(list.nodes, s)
    ensures Exact(list.nodes, s.bound, s.x, Loaded(list.nodes, s), members[s.level])
  {
    CanAlwaysLoad(list, members, s);
    var nodes, m, r := list.nodes, members[s.level], Loaded(list.nodes, s);
    assert LevelOk(nodes, m, s.level);
    forall n | n in m && !Before(nodes, n, s.bound)
      ensures r.Some? && nodes[r.value].key <= nodes[n].key
    {
      assert IsAfter(nodes, n, s.x);
    }
    forall n | n in m && Before(nodes, n, s.bound)
      ensures s.x != 0 && nodes[n].key <= nodes[s.x].key
    {
      assert !IsAfter(nodes, n, s.x);
    }
  }

  lemma ReaderLoadKeeps(s: Sys, r: nat, s': Sys)
    requires SysOk(s) && ReaderNext(s, r, s')
    ensures SysOk(s')
  {
    var q := s.readers[r].search;
    assert ReaderOk(s.list.nodes, s.members, s.readers[r]);
    if GoesRight(s.list.nodes, q) {
      RightKeeps(s.list, s.members, q);
    } else if q.level > 0 {
      DownKeeps(s.list, s.members, q);
    } else {
      StopsAtBound(s.list, s.members, q);
    }
  }

  // ----- the writer

  lemma StartInsertKeeps(s: Sys, key: Key, s': Sys)
    requires SysOk(s) && WriterNext(s, StartInsert(key), s')
    ensures SysOk(s')
  {
    assert LevelOk(s.list.nodes, s.members[0], 0);
  }

  lemma PredecessorFound(list: List, members: seq<set<nat>>, s: Search, key: Key)
    requires ListOk(list, members) && SearchOk(list.nodes, members, s) && CanLoad(list.nodes, s)
             && !GoesRight(list.nodes, s)
    requires s.bound == Some(key)
    ensures IsPredecessor(list.nodes, members[s.level], key, s.x)
  {
    StopsAtBound(list, members, s);
  }

  lemma WriterLoadKeeps(s: Sys, s': Sys)
    requires SysOk(s) && WriterNext(s, WriterLoad, s')
    ensures SysOk(s')
  {
    var q := s.writer.search;
    if GoesRight(s.list.nodes, q) {
      RightKeeps(s.list, s.members, q);
    } else {
      LeaveLevel(s.list, s.members, q, s.writer.prev);
      if q.level > 0 {
        DownKeeps(s.list, s.members, q);
      }
    }
  }

  ghost predicate KeysKept(nodes: seq<Node>, nodes': seq<Node>) {
    |nodes| <= |nodes'| && forall x :: 0 <= x < |nodes| ==> nodes'[x].key == nodes[x].key
  }

  ghost predicate Grown(members: seq<set<nat>>, members': seq<set<nat>>) {
    |members'| == |members| && forall l :: 0 <= l < |members| ==> members[l] <= members'[l]
  }

  /** Pointers of the level do not change, keys never do. */
  lemma LevelFrame(nodes: seq<Node>, nodes': seq<Node>, members: set<nat>, l: nat)
    requires LevelOk(nodes, members, l) && KeysKept(nodes, nodes')
    requires forall x: nat :: Linked(members, x) && CanStore(nodes, x, l) ==>
               CanStore(nodes', x, l) && nodes'[x].next[l] == nodes[x].next[l]
    ensures LevelOk(nodes', members, l)
  {
    forall x: nat | Linked(members, x)
      ensures CanStore(nodes', x, l) && IsSuccessor(nodes', members, x, nodes'[x].next[l])
    {
      assert CanStore(nodes, x, l) && IsSuccessor(nodes, members, x, nodes[x].next[l]);
    }
  }

  /** Nothing that the writer does disturbs a reader. */
  lemma ReadersFrame(nodes: seq<Node>, nodes': seq<Node>, members: seq<set<nat>>, members': seq<set<nat>>, r: Reader)
    requires |members| == |members'| == MAX_HEIGHT && ReaderOk(nodes, members, r)
    requires KeysKept(nodes, nodes') && Grown(members, members')
    ensures ReaderOk(nodes', members', r)
  {
    assert members[0] <= members'[0];
    if r.Running? {
      assert members[r.search.level] <= members'[r.search.level];
    }
  }

  lemma PrevFrame(nodes: seq<Node>, nodes': seq<Node>, members: seq<set<nat>>, members': seq<set<nat>>, key: Key,
                  prev: map<nat, nat>, lo: nat, hi: nat)
    requires PrevOk(nodes, members, key, prev, lo, hi) && KeysKept(nodes, nodes') && |members'| == |members|
    requires forall l :: lo <= l < hi ==> members'[l] == members[l]
    ensures PrevOk(nodes', members', key, prev, lo, hi)
  {
    forall l | lo <= l < hi
      ensures l in prev && IsPredecessor(nodes', members'[l], key, prev[l])
    {
      assert IsPredecessor(nodes, members[l], key, prev[l]);
    }
  }

  lemma AllocateList(list: List, members: seq<set<nat>>, key: Key, height: nat, list': List)
    requires ListOk(list, members) && 1 <= height <= MAX_HEIGHT
    requires list'.nodes == list.nodes + [Node(key, seq(height, _ => None))]
    requires list'.maxHeight == if height > list.maxHeight then height else list.maxHeight
    ensures ListOk(list', members) && KeysKept(list.nodes, list'.nodes)
  {
    forall l | 0 <= l < MAX_HEIGHT
      ensures LevelOk(list'.nodes, members[l], l)
    {
      assert LevelOk(list.nodes, members[l], l);
      LevelFrame(list.nodes, list'.nodes, members[l], l);
    }
    assert LevelOk(list.nodes, members[0], 0);
  }

  lemma AllocateLink(list: List, members: seq<set<nat>>, key: Key, prev: map<nat, nat>, height: nat, list': List)
    requires ListOk(list, members) && 1 <= height <= MAX_HEIGHT && KeyIsNew(list.nodes, members[0], key)
    requires PrevOk(list.nodes, members, key, prev, 0, list.maxHeight)
    requires list'.nodes == list.nodes + [Node(key, seq(height, _ => None))]
    requires list'.maxHeight == if height > list.maxHeight then height else list.maxHeight
    ensures LinkOk(list', members, key, HeadFrom(prev, list.maxHeight, height), |list.nodes|, 0, false)
  {
    var prev' := HeadFrom(prev, list.maxHeight, height);
    forall l | 0 <= l < MAX_HEIGHT
      ensures InList(list.nodes, members[l])
    {
      assert LevelOk(list.nodes, members[l], l);
    }
    forall l | 0 <= l < height
      ensures l in prev' && IsPredecessor(list'.nodes, members[l], key, prev'[l])
    {
      if l < list.maxHeight {
        assert IsPredecessor(list.nodes, members[l], key, prev[l]);
      }
    }
  }

  lemma AllocateKeeps(s: Sys, height: nat, s': Sys)
    requires SysOk(s) && s'.readers == s.readers && WriterNext(s, Allocate(height), s')
    ensures SysOk(s')
  {
    AllocateList(s.list, s.members, s.writer.key, height, s'.list);
    AllocateLink(s.list, s.members, s.writer.key, s.writer.prev, height, s'.list);
    ReadersKeep(s, s');
  }

  lemma ReadersKeep(s: Sys, s': Sys)
    requires SysOk(s) && s'.readers == s.readers && |s'.members| == MAX_HEIGHT
    requires KeysKept(s.list.nodes, s'.list.nodes) && Grown(s.members, s'.members)
    ensures forall r :: 0 <= r < |s'.readers| ==> ReaderOk(s'.list.nodes, s'.members, s'.readers[r])
  {
    forall r | 0 <= r < |s.readers|
      ensures ReaderOk(s'.list.nodes, s'.members, s.readers[r])
    {
      ReadersFrame(s.list.nodes, s'.list.nodes, s.members, s'.members, s.readers[r]);
    }
  }

  /** The store into the new node is not visible: the node is not linked there. */
  lemma StoreNextKeeps(s: Sys, s': Sys)
    requires SysOk(s) && s'.readers == s.readers && WriterNext(s, StoreNext, s')
    ensures SysOk(s')
  {
    var nodes, nodes', w := s.list.nodes, s'.list.nodes, s.writer;
    forall l | 0 <= l < MAX_HEIGHT
      ensures LevelOk(nodes', s.members[l], l)
    {
      assert LevelOk(nodes, s.members[l], l);
      LevelFrame(nodes, nodes', s.members[l], l);
    }
    PrevFrame(nodes, nodes', s.members, s.members, w.key, w.prev, w.i, |nodes[w.node].next|);
    ReadersKeep(s, s');
    assert IsPredecessor(nodes, s.members[w.i], w.key, w.prev[w.i]);
  }

  /** Linking the node behind its predecessor makes it a member. */
  lemma PublishLevel(nodes: seq<Node>, members: set<nat>, l: nat, p: nat, node: nat, nodes': seq<Node>)
    requires LevelOk(nodes, members, l) && 0 < node < |nodes| && node !in members && CanStore(nodes, node, l)
    requires IsPredecessor(nodes, members, nodes[node].key, p) && CanStore(nodes, p, l)
    requires KeyIsNew(nodes, members, nodes[node].key) && KeysDiffer(nodes, members)
    requires nodes[node].next[l] == nodes[p].next[l] && nodes' == SetNext(nodes, p, l, Some(node))
    ensures LevelOk(nodes', members + {node}, l)
  {
    var more := members + {node};
    assert Linked(members, p);
    forall x: nat | Linked(more, x)
      ensures CanStore(nodes', x, l) && IsSuccessor(nodes', more, x, nodes'[x].next[l])
    {
      if x == node {
        assert IsSuccessor(nodes, members, p, nodes[p].next[l]);
        NewNodeSuccessor(nodes, members, p, node, nodes[p].next[l]);
      } else {
        assert Linked(members, x);
        assert IsSuccessor(nodes, members, x, nodes[x].next[l]);
        OldNodeSuccessor(nodes, members, p, node, x, nodes[x].next[l]);
      }
    }
  }

  lemma NewNodeSuccessor(nodes: seq<Node>, members: set<nat>, p: nat, node: nat, r: Option<nat>)
    requires InList(nodes, members) && 0 < node < |nodes| && p < |nodes| && node != p
    requires IsPredecessor(nodes, members, nodes[node].key, p) && KeyIsNew(nodes, members, nodes[node].key)
    requires IsSuccessor(nodes, members, p, r)
    ensures IsSuccessor(nodes, members + {node}, node, r)
  {
    forall m | m in members && IsAfter(nodes, m, node)
      ensures IsAfter(nodes, m, p)
    {
    }
  }

  lemma OldNodeSuccessor(nodes: seq<Node>, members: set<nat>, p: nat, node: nat, x: nat, r: Option<nat>)
    requires InList(nodes, members) && 0 < node < |nodes| && p < |nodes| && x < |nodes| && Linked(members, x)
             && Linked(members, p)
    requires IsPredecessor(nodes, members, nodes[node].key, p) && KeyIsNew(nodes, members, nodes[node].key)
    requires KeysDiffer(nodes, members) && IsSuccessor(nodes, members, x, r)
    ensures IsSuccessor(nodes, members + {node}, x, if x == p then Some(node) else r)
  {
    if x != p && p != 0 && IsAfter(nodes, node, x) {
      assert IsAfter(nodes, p, x);
    }
  }

  lemma {:induction false} LowerHoldsAll(members: seq<set<nat>>, l: nat)
    requires l < |members| && Nested(members)
    ensures members[l] <= members[0]
  {
    if l > 0 {
      LowerHoldsAll(members, l - 1);
      assert members[l] <= members[l - 1];
    }
  }

  lemma PublishList(list: List, members: seq<set<nat>>, key: Key, prev: map<nat, nat>, node: nat, i: nat,
                    nodes': seq<Node>)
    requires ListOk(list, members) && LinkOk(list, members, key, prev, node, i, true)
    requires CanStore(list.nodes, prev[i], i) && nodes' == SetNext(list.nodes, prev[i], i, Some(node))
    ensures ListOk(list.(nodes := nodes'), members[i := members[i] + {node}])
  {
    var members' := members[i := members[i] + {node}];
    PublishAt(list, members, key, prev, node, i, nodes');
    OtherLevels(list, members, prev[i], i, node, nodes');
    StillNested(members, members', node, i);
  }

  lemma PublishAt(list: List, members: seq<set<nat>>, key: Key, prev: map<nat, nat>, node: nat, i: nat,
                  nodes': seq<Node>)
    requires ListOk(list, members) && LinkOk(list, members, key, prev, node, i, true)
    requires CanStore(list.nodes, prev[i], i) && nodes' == SetNext(list.nodes, prev[i], i, Some(node))
    ensures LevelOk(nodes', members[i] + {node}, i)
    ensures KeysDiffer(nodes', members[0] + {node})
  {
    hide Nested, LevelOk, SetNext;
    var nodes := list.nodes;
    LowerHoldsAll(members, i);
    assert LevelOk(nodes, members[0], 0) && LevelOk(nodes, members[i], i);
    assert IsPredecessor(nodes, members[i], key, prev[i]);
    PublishLevel(nodes, members[i], i, prev[i], node, nodes');
  }

  lemma OtherLevels(list: List, members: seq<set<nat>>, p: nat, i: nat, node: nat, nodes': seq<Node>)
    requires ListOk(list, members) && CanStore(list.nodes, p, i) && nodes' == SetNext(list.nodes, p, i, Some(node))
    ensures forall l :: 0 <= l < MAX_HEIGHT && l != i ==> LevelOk(nodes', members[l], l)
  {
    forall l | 0 <= l < MAX_HEIGHT && l != i
      ensures LevelOk(nodes', members[l], l)
    {
      assert LevelOk(list.nodes, members[l], l);
      LevelFrame(list.nodes, nodes', members[l], l);
    }
  }

  lemma StillNested(members: seq<set<nat>>, members': seq<set<nat>>, node: nat, i: nat)
    requires i < |members| && Nested(members) && (forall l :: 0 <= l < i ==> node in members[l])
    requires members' == members[i := members[i] + {node}]
    ensures Nested(members')
  {
    forall l | 0 < l < |members'|
      ensures members'[l] <= members'[l - 1]
    {
      assert members[l] <= members[l - 1];
    }
  }

  /** The store that links the node at one level. */
  lemma PublishKeeps(s: Sys, s': Sys)
    requires SysOk(s) && s'.readers == s.readers && WriterNext(s, Publish, s')
    ensures SysOk(s')
  {
    var w := s.writer;
    PublishList(s.list, s.members, w.key, w.prev, w.node, w.i, s'.list.nodes);
    if s'.writer.Linking? {
      PrevFrame(s.list.nodes, s'.list.nodes, s.members, s'.members, w.key, w.prev, w.i + 1,
                |s.list.nodes[w.node].next|);
    }
    ReadersKeep(s, s');
  }

  lemma WriterKeeps(s: Sys, step: Step, s': Sys)
    requires SysOk(s) && s'.readers == s.readers && WriterNext(s, step, s')
    ensures SysOk(s')
  {
    match step {
      case StartInsert(key) => StartInsertKeeps(s, key, s');
      case WriterLoad => WriterLoadKeeps(s, s');
      case Allocate(height) => AllocateKeeps(s, height, s');
      case StoreNext => StoreNextKeeps(s, s');
      case Publish => PublishKeeps(s, s');
    }
  }

  lemma NextKeeps(s: Sys, step: Step, s': Sys)
    requires SysOk(s) && Next(s, step, s')
    ensures SysOk(s')
  {
    match step {
      case StartSearch(bound) =>
        assert LevelOk(s.list.nodes, s.members[0], 0);
      case ReaderLoad(r) => ReaderLoadKeeps(s, r, s');
      case _ => WriterKeeps(s, step, s');
    }
  }

  // ----- every run

  ghost predicate IsRun(states: seq<Sys>, steps: seq<Step>) {
    && |states| == |steps| + 1
    && states[0] == INIT
    && forall i :: 0 <= i < |steps| ==> Next(states[i], steps[i], states[i + 1])
  }

  lemma InitOk()
    ensures SysOk(INIT)
  {
    forall l | 0 <= l < MAX_HEIGHT
      ensures LevelOk(INIT.list.nodes, INIT.members[l], l)
    {
      assert NO_MEMBERS[l] == {} && NONE[l] == None;
    }
  }

  lemma {:induction false} RunsKeep(states: seq<Sys>, steps: seq<Step>, i: nat)
    requires IsRun(states, steps) && i < |states|
    ensures SysOk(states[i])
  {
    if i == 0 {
      InitOk();
    } else {
      RunsKeep(states, steps, i - 1);
      NextKeeps(states[i - 1], steps[i - 1], states[i]);
    }
  }

  /** The nodes met when following the pointers of a level from `x` to the end. */
  ghost predicate IsWalk(nodes: seq<Node>, l: nat, x: nat, path: seq<nat>)
    decreases |path|
  {
    && CanStore(nodes, x, l)
    && (if path == [] then nodes[x].next[l] == None
        else nodes[x].next[l] == Some(path[0]) && IsWalk(nodes, l, path[0], path[1..]))
  }

  ghost predicate Rising(nodes: seq<Node>, path: seq<nat>) {
    && (forall i :: 0 <= i < |path| ==> path[i] < |nodes|)
    && (forall i, j :: 0 <= i < j < |path| ==> nodes[path[i]].key < nodes[path[j]].key)
  }

  ghost function MembersAfter(nodes: seq<Node>, members: set<nat>, x: nat): set<nat>
    requires x < |nodes| && InList(nodes, members)
  {
    set m | m in members && IsAfter(nodes, m, x)
  }

  lemma AfterSuccessor(nodes: seq<Node>, members: set<nat>, x: nat, n: nat)
    requires InList(nodes, members) && KeysDiffer(nodes, members) && x < |nodes|
             && IsSuccessor(nodes, members, x, Some(n))
    ensures n !in MembersAfter(nodes, members, n)
    ensures MembersAfter(nodes, members, x) == {n} + MembersAfter(nodes, members, n)
  {
  }

  lemma RisingCons(nodes: seq<Node>, n: nat, rest: seq<nat>)
    requires n < |nodes| && Rising(nodes, rest) && forall m :: m in rest ==> m < |nodes| && nodes[n].key < nodes[m].key
    ensures Rising(nodes, [n] + rest)
  {
    assert forall i :: 0 <= i < |rest| ==> rest[i] in rest;
  }

  lemma Walk(nodes: seq<Node>, members: set<nat>, l: nat, x: nat) returns (path: seq<nat>)
    requires LevelOk(nodes, members, l) && KeysDiffer(nodes, members) && Linked(members, x) && x < |nodes|
    ensures IsWalk(nodes, l, x, path) && Rising(nodes, path)
    ensures forall n :: n in path <==> n in MembersAfter(nodes, members, x)
    decreases |MembersAfter(nodes, members, x)|
  {
    var r := nodes[x].next[l];
    assert IsSuccessor(nodes, members, x, r);
    if r.None? {
      path := [];
    } else {
      var n := r.value;
      AfterSuccessor(nodes, members, x, n);
      SubsetSmaller(MembersAfter(nodes, members, n), MembersAfter(nodes, members, x));
      var rest := Walk(nodes, members, l, n);
      RisingCons(nodes, n, rest);
      path := [n] + rest;
      assert path[1..] == rest;
    }
  }

  lemma SubsetSmaller(a: set<nat>, b: set<nat>)
    requires a < b
    ensures |a| < |b|
  {
    assert b == a + (b - a);
  }

  /** After every single store and load of every run, following the pointers of a
      level from the head meets exactly its members in rising key order, and the
      members of each level are members of the level below. */
  lemma LevelsStaySorted(states: seq<Sys>, steps: seq<Step>, i: nat, l: nat) returns (path: seq<nat>)
    requires IsRun(states, steps) && i < |states| && l < MAX_HEIGHT
    ensures IsWalk(states[i].list.nodes, l, 0, path) && Rising(states[i].list.nodes, path)
    ensures l < |states[i].members| && (forall n :: n in path <==> n in states[i].members[l])
    ensures l > 0 ==> states[i].members[l] <= states[i].members[l - 1]
  {
    RunsKeep(states, steps, i);
    var nodes, members := states[i].list.nodes, states[i].members;
    assert LevelOk(nodes, members[l], l) && LevelOk(nodes, members[0], 0);
    LowerHoldsAll(members, l);
    path := Walk(nodes, members[l], l, 0);
  }

  /** A finished search returned the least key at or after its bound, and the
      greatest before it, among the nodes listed at its last load; these include
      every node listed when it began. */
  lemma SearchIsExact(states: seq<Sys>, steps: seq<Step>, i: nat, r: nat)
    requires IsRun(states, steps) && i < |states| && r < |states[i].readers| && states[i].readers[r].Done?
    ensures var d := states[i].readers[r];
            d.began <= d.seen && Exact(states[i].list.nodes, d.bound, d.before, d.atOrAfter, d.seen)
  {
    RunsKeep(states, steps, i);
    assert ReaderOk(states[i].list.nodes, states[i].members, states[i].readers[r]);
  }

  /** The step that ends a search: what it saw is the list at that load. */
  lemma SeenIsTheList(s: Sys, r: nat, s': Sys)
    requires SysOk(s) && ReaderNext(s, r, s') && s'.readers[r].Done?
    ensures s'.readers[r].seen == s.members[0] && s'.readers[r].bound == s.readers[r].search.bound
  {
  }

  /** Contains: a key that was listed when the search began is found. */
  lemma ListedKeyIsFound(states: seq<Sys>, steps: seq<Step>, i: nat, r: nat, n: nat)
    requires IsRun(states, steps) && i < |states| && r < |states[i].readers| && states[i].readers[r].Done?
    requires n in states[i].readers[r].began && n < |states[i].list.nodes|
    requires states[i].readers[r].bound == Some(states[i].list.nodes[n].key)
    ensures states[i].readers[r].atOrAfter == Some(n)
  {
    SearchIsExact(states, steps, i, r);
    RunsKeep(states, steps, i);
    var d := states[i].readers[r];
    assert ReaderOk(states[i].list.nodes, states[i].members, d);
    assert n in d.seen && !Before(states[i].list.nodes, n, d.bound);
  }

  /** When Insert is done its node is linked at every one of its levels. */
  lemma InsertedIsListed(s: Sys, s': Sys)
    requires SysOk(s) && WriterNext(s, Publish, s') && s'.writer.Idle?
    ensures forall l :: 0 <= l < |s.list.nodes[s.writer.node].next| ==> s.writer.node in s'.members[l]
    ensures s'.list.nodes[s.writer.node].key == s.writer.key
  {
  }

  // ----- the searches and the insertion as loops, without other threads

  lemma StepRightShrinks(list: List, members: seq<set<nat>>, s: Search)
    requires ListOk(list, members) && SearchOk(list.nodes, members, s) && CanLoad(list.nodes, s)
             && GoesRight(list.nodes, s)
    ensures var n := Loaded(list.nodes, s).value;
            n < |list.nodes| && InList(list.nodes, members[s.level]) &&
            |MembersAfter(list.nodes, members[s.level], n)| < |MembersAfter(list.nodes, members[s.level], s.x)|
  {
    CanAlwaysLoad(list, members, s);
    assert LevelOk(list.nodes, members[s.level], s.level);
    LowerHoldsAll(members, s.level);
    var n := Loaded(list.nodes, s).value;
    AfterSuccessor(list.nodes, members[s.level], s.x, n);
    SubsetSmaller(MembersAfter(list.nodes, members[s.level], n), MembersAfter(list.nodes, members[s.level], s.x));
  }

  lemma LeaveLevel(list: List, members: seq<set<nat>>, s: Search, prev: map<nat, nat>)
    requires ListOk(list, members) && SearchOk(list.nodes, members, s) && CanLoad(list.nodes, s)
             && !GoesRight(list.nodes, s)
    requires s.bound.Some? && PrevOk(list.nodes, members, s.bound.value, prev, s.level + 1, list.maxHeight)
    ensures PrevOk(list.nodes, members, s.bound.value, prev[s.level := s.x], s.level, list.maxHeight)
  {
    PredecessorFound(list, members, s, s.bound.value);
  }

  class SkipListObject {
    var list: List
    ghost var members: seq<set<nat>>

    constructor ()
      ensures list == INIT.list && members == NO_MEMBERS && ListOk(list, members)
    {
      list, members := List([Node(0, NONE)], 1), NO_MEMBERS;
      new;
      InitOk();
    }

    /** FindGreaterOrEqual, FindLessThan and FindLast are this loop; they differ in
        the bound and in which of the two nodes they return.  `prev` records where
        the search left each level. */
    method Find(bound: Option<Key>) returns (before: nat, atOrAfter: Option<nat>, prev: map<nat, nat>)
      requires ListOk(list, members)
      ensures Exact(list.nodes, bound, before, atOrAfter, members[0])
      ensures bound.Some? ==> PrevOk(list.nodes, members, bound.value, prev, 0, list.maxHeight)
    {
      var s := Search(bound, 0, list.maxHeight - 1);
      prev := map[];
      while true
        invariant SearchOk(list.nodes, members, s) && s.level < list.maxHeight && s.bound == bound
        invariant bound.Some? ==> PrevOk(list.nodes, members, bound.value, prev, s.level + 1, list.maxHeight)
        invariant InList(list.nodes, members[s.level])
        decreases s.level, |MembersAfter(list.nodes, members[s.level], s.x)|
      {
        CanAlwaysLoad(list, members, s);
        var next := list.nodes[s.x].next[s.level];
        if next.Some? && Before(list.nodes, next.value, bound) {
          RightKeeps(list, members, s);
          StepRightShrinks(list, members, s);
          s := s.(x := next.value);
        } else {
          if bound.Some? {
            LeaveLevel(list, members, s, prev);
          }
          prev := prev[s.level := s.x];
          if s.level == 0 {
            StopsAtBound(list, members, s);
            return s.x, next, prev;
          }
          DownKeeps(list, members, s);
          assert LevelOk(list.nodes, members[s.level - 1], s.level - 1);
          s := s.(level := s.level - 1);
        }
      }
    }

    method Contains(key: Key) returns (r: bool)
      requires ListOk(list, members)
      ensures r <==> exists m :: m in members[0] && m < |list.nodes| && list.nodes[m].key == key
    {
      var _, x, _ := Find(Some(key));
      assert LevelOk(list.nodes, members[0], 0);
      r := x.Some? && list.nodes[x.value].key == key;
    }

    /** Insert at a given height: the key joins the list and nothing else changes. */
    method Insert(key: Key, height: nat)
      requires ListOk(list, members) && 1 <= height <= MAX_HEIGHT && KeyIsNew(list.nodes, members[0], key)
      modifies this
      ensures ListOk(list, members) && KeysKept(old(list.nodes), list.nodes)
      ensures |list.nodes| == |old(list.nodes)| + 1 && list.nodes[|old(list.nodes)|].key == key
      ensures members[0] == old(members[0]) + {|old(list.nodes)|}
    {
      hide LevelOk, LinkOk, Exact, KeyIsNew;
      var _, _, found := Find(Some(key));
      var prev := HeadFrom(found, list.maxHeight, height);
      var node := |list.nodes|;
      ghost var before := list;
      var max := if height > list.maxHeight then height else list.maxHeight;
      var list' := List(list.nodes + [Node(key, seq(height, _ => None))], max);
      AllocateList(before, members, key, height, list');
      AllocateLink(before, members, key, found, height, list');
      list := list';
      for i := 0 to height
        invariant ListOk(list, members) && KeysKept(before.nodes, list.nodes) && |list.nodes| == node + 1
        invariant list.nodes[node].key == key && |list.nodes[node].next| == height
        invariant members[0] == old(members[0]) + (if i == 0 then {} else {node})
        invariant i < height ==> LinkOk(list, members, key, prev, node, i, false)
      {
        LinkOne(key, prev, node, i);
      }
    }

    method LinkOne(key: Key, prev: map<nat, nat>, node: nat, i: nat)
      requires ListOk(list, members) && LinkOk(list, members, key, prev, node, i, false)
      modifies this
      ensures ListOk(list, members) && KeysKept(old(list.nodes), list.nodes) && |list.nodes| == |old(list.nodes)|
      ensures |list.nodes[node].next| == |old(list.nodes)[node].next|
      ensures members == old(members)[i := old(members)[i] + {node}]
      ensures i + 1 < |list.nodes[node].next| ==> LinkOk(list, members, key, prev, node, i + 1, false)
    {
      ghost var s := Sys(list, members, Linking(key, prev, node, i, false), []);
      assert IsPredecessor(list.nodes, members[i], key, prev[i]);
      assert LevelOk(list.nodes, members[i], i) && Linked(members[i], prev[i]);
      list := list.(nodes := SetNext(list.nodes, node, i, list.nodes[prev[i]].next[i]));
      ghost var s1 := Sys(list, members, Linking(key, prev, node, i, true), []);
      StoreNextKeeps(s, s1);
      ghost var s2 := Sys(list.(nodes := SetNext(list.nodes, prev[i], i, Some(node))),
                          members[i := members[i] + {node}],
                          if i + 1 == |list.nodes[node].next| then Idle else Linking(key, prev, node, i + 1, false),
                              []);
      list := list.(nodes := SetNext(list.nodes, prev[i], i, Some(node)));
      members := members[i := members[i] + {node}];
      PublishKeeps(s1, s2);
    }
  }
}
