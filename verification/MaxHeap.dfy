/** The MaxHeap index of Antelope: a binary tree of key ranges laid out in an array,
    with one append-only bucket of pairs per node.
 */
module MaxHeap {
  import opened Common

  const NODE_LIMIT: nat := 511
  const NODE_DEPTH: nat := 9
  const BUCKET_SIZE: nat := 128
  const KEY_MAX: nat := 65535

  type Key = k: nat | k <= KEY_MAX

  datatype Node = Node(min: Key, max: Key)
  datatype Pair = Pair(key: Key, value: Key)
  const NO_NODE: Node := Node(0, 0)
  const NO_PAIR: Pair := Pair(0, 0)

  predicate Empty(n: Node)
  {
    n.min == 0 && n.max == 0
  }

  predicate Contains(n: Node, h: Key)
  {
    !Empty(n) && n.min <= h <= n.max
  }

  function Parent(i: nat): nat
    requires i > 0
  {
    (i - 1) / 2
  }

  // ----- Ranges by depth -----

  function Depth(i: nat): nat
  {
    if i == 0 then 0 else 1 + Depth(Parent(i))
  }

  lemma {:induction false} DepthBound(i: nat)
    ensures Pow2(Depth(i)) <= i + 1
  {
    if i > 0 {
      DepthBound(Parent(i));
    }
  }

  lemma {:induction false} Pow2Monotone(a: nat, b: nat)
    requires a <= b
    ensures Pow2(a) <= Pow2(b)
  {
    if a < b {
      Pow2Monotone(a, b - 1);
    }
  }

  /** A node of the tree is at most eight levels below the root. */
  lemma DepthSmall(i: nat)
    requires i < NODE_LIMIT
    ensures Depth(i) <= 8
  {
    DepthBound(i);
    assert Pow2(3) == 8 && Pow2(6) == 8 * Pow2(3) && Pow2(9) == 8 * Pow2(6);
    if Depth(i) >= 9 {
      Pow2Monotone(9, Depth(i));
      assert false;
    }
  }

  /** Number of keys in the range of a node. */
  function Width(i: nat): nat
    requires i < NODE_LIMIT
  {
    DepthSmall(i);
    Pow2(16 - Depth(i))
  }

  lemma WidthHalves(i: nat)
    requires 0 < i < NODE_LIMIT
    ensures Width(Parent(i)) == 2 * Width(i) && Width(i) >= 256
  {
    DepthSmall(i);
    assert Pow2(4) == 16 && Pow2(8) == 16 * Pow2(4);
    Pow2Monotone(8, 16 - Depth(i));
  }

  lemma RootWidth()
    ensures Width(0) == 65536
  {
    assert Pow2(4) == 16 && Pow2(8) == 16 * Pow2(4) && Pow2(12) == 16 * Pow2(8) && Pow2(16) == 16 * Pow2(12);
  }

  function Mean(n: Node): Key
    requires n.min <= n.max
  {
    n.min + (n.max - n.min) / 2
  }

  /** The two halves a node splits into. */
  function Lower(n: Node): Node
    requires n.min <= n.max
  {
    Node(n.min, Mean(n))
  }

  function Upper(n: Node): Node
    requires n.min < n.max
  {
    Node(Mean(n) + 1, n.max)
  }

  // ----- The tree invariant -----

  ghost predicate Sized(nodes: seq<Node>, i: nat)
    requires i < NODE_LIMIT == |nodes|
  {
    nodes[i].min <= nodes[i].max && nodes[i].max - nodes[i].min + 1 == Width(i)
  }

  /** What holds at one node: it is empty together with its sibling, or both halve
      their parent's range. */
  ghost predicate Local(nodes: seq<Node>, i: nat)
    requires 0 < i < NODE_LIMIT == |nodes|
  {
    var p := Parent(i);
    var left, right := 2 * p + 1, 2 * p + 2;
    if Empty(nodes[i]) then Empty(nodes[left]) && Empty(nodes[right])
    else
      && !Empty(nodes[p]) && nodes[p].min < nodes[p].max
      && nodes[left] == Lower(nodes[p]) && nodes[right] == Upper(nodes[p])
      && Sized(nodes, i)
  }

  ghost predicate Tree(nodes: seq<Node>)
  {
    && |nodes| == NODE_LIMIT
    && nodes[0] == Node(0, KEY_MAX)
    && forall i :: 0 < i < NODE_LIMIT ==> Local(nodes, i)
  }

  lemma NodeSized(nodes: seq<Node>, i: nat)
    requires Tree(nodes) && i < NODE_LIMIT && !Empty(nodes[i])
    ensures Sized(nodes, i)
  {
    if i == 0 { RootWidth(); } else { assert Local(nodes, i); }
  }

  /** The child of `i` whose range holds `h`. */
  function ChildFor(nodes: seq<Node>, h: Key, i: nat): nat
    requires 2 * i + 2 < |nodes|
  {
    if Contains(nodes[2 * i + 1], h) then 2 * i + 1 else 2 * i + 2
  }

  lemma ChildrenPartition(nodes: seq<Node>, h: Key, i: nat)
    requires Tree(nodes) && 2 * i + 2 < NODE_LIMIT && !Empty(nodes[2 * i + 1])
    ensures !Empty(nodes[i]) && !Empty(nodes[2 * i + 2])
    ensures Contains(nodes[i], h) <==> Contains(nodes[2 * i + 1], h) || Contains(nodes[2 * i + 2], h)
    ensures !(Contains(nodes[2 * i + 1], h) && Contains(nodes[2 * i + 2], h))
  {
    assert Parent(2 * i + 1) == i && Parent(2 * i + 2) == i;
    assert Local(nodes, 2 * i + 1);
    WidthHalves(2 * i + 2);
    assert Local(nodes, 2 * i + 2);
  }

  // ----- The walk of heap_find -----

  /** The next node of the walk below `i`, if there is one above the bottom level. */
  function NextDown(nodes: seq<Node>, h: Key, i: nat): Option<nat>
    requires |nodes| == NODE_LIMIT
  {
    if 2 * i + 2 >= NODE_LIMIT || Empty(nodes[2 * i + 1]) then None
    else
      var c := ChildFor(nodes, h, i);
      if 2 * c + 1 >= NODE_LIMIT then None else Some(c)
  }

  /** The nodes visited from `i` down. */
  function Walk(nodes: seq<Node>, h: Key, i: nat): (w: seq<nat>)
    requires |nodes| == NODE_LIMIT && i < NODE_LIMIT
    ensures |w| >= 1
    decreases NODE_LIMIT - i
  {
    match NextDown(nodes, h, i)
    case None => [i]
    case Some(c) => [i] + Walk(nodes, h, c)
  }

  /** The walk from the root visits exactly the nodes above the bottom level whose
      range holds the hash. */
  lemma {:induction false} WalkIsContaining(nodes: seq<Node>, h: Key, i: nat, j: nat)
    requires Tree(nodes) && i < NODE_LIMIT && Contains(nodes[i], h) && 2 * i + 1 < NODE_LIMIT
    requires j < NODE_LIMIT
    ensures j in Walk(nodes, h, i) ==> Contains(nodes[j], h) && 2 * j + 1 < NODE_LIMIT && i <= j
    ensures Below(i, j) && Contains(nodes[j], h) && 2 * j + 1 < NODE_LIMIT ==> j in Walk(nodes, h, i)
    decreases NODE_LIMIT - i
  {
    var next := NextDown(nodes, h, i);
    if 2 * i + 2 < NODE_LIMIT && !Empty(nodes[2 * i + 1]) {
      ChildrenPartition(nodes, h, i);
    }
    if next.Some? {
      WalkIsContaining(nodes, h, next.value, j);
    }
    if Below(i, j) && Contains(nodes[j], h) && 2 * j + 1 < NODE_LIMIT && j != i {
      var c := Branch(i, j);
      BranchContains(nodes, h, i, j);
      ChildrenPartition(nodes, h, i);
      assert c == ChildFor(nodes, h, i);
    }
  }

  /** `j` is `i` or a descendant of it. */
  predicate Below(i: nat, j: nat)
    decreases j
  {
    j == i || (j > i && j > 0 && Below(i, Parent(j)))
  }

  /** The child of `i` on the way to its proper descendant `j`. */
  function Branch(i: nat, j: nat): (c: nat)
    requires Below(i, j) && j != i
    ensures (c == 2 * i + 1 || c == 2 * i + 2) && Below(c, j) && c <= j
    decreases j
  {
    if Parent(j) == i then j else Branch(i, Parent(j))
  }

  lemma {:induction false} AllBelowRoot(j: nat)
    ensures Below(0, j)
  {
    if j > 0 {
      AllBelowRoot(Parent(j));
    }
  }

  /** A range that holds a hash lies in the ranges of all its ancestors. */
  lemma {:induction false} BranchContains(nodes: seq<Node>, h: Key, i: nat, j: nat)
    requires Tree(nodes) && j < NODE_LIMIT && Below(i, j) && j != i && Contains(nodes[j], h)
    requires 2 * j + 1 < NODE_LIMIT
    ensures Contains(nodes[Branch(i, j)], h)
    ensures 2 * i + 2 < NODE_LIMIT && !Empty(nodes[2 * i + 1]) && 2 * Branch(i, j) + 1 < NODE_LIMIT
    decreases j
  {
    var p := Parent(j);
    assert Local(nodes, j) && Local(nodes, 2 * p + 1);
    ChildrenPartition(nodes, h, p);
    if p != i {
      BranchContains(nodes, h, i, p);
    }
  }

  /** `heap_find` from the root visits node `j` iff its range holds the hash and it is
      above the bottom level. */
  lemma WalkFromRoot(nodes: seq<Node>, h: Key, j: nat)
    requires Tree(nodes) && j < NODE_LIMIT
    ensures j in Walk(nodes, h, 0) <==> Contains(nodes[j], h) && 2 * j + 1 < NODE_LIMIT
  {
    AllBelowRoot(j);
    WalkIsContaining(nodes, h, 0, j);
  }

  lemma {:induction false} WalkShort(nodes: seq<Node>, h: Key, i: nat)
    requires |nodes| == NODE_LIMIT && 2 * i + 1 < NODE_LIMIT
    ensures |Walk(nodes, h, i)| + Depth(i) <= 8
    decreases NODE_LIMIT - i
  {
    var next := NextDown(nodes, h, i);
    if next.Some? {
      assert Parent(next.value) == i;
      WalkShort(nodes, h, next.value);
    } else {
      assert Parent(2 * i + 1) == i;
      DepthSmall(2 * i + 1);
    }
  }

  // ----- Where heap_insert puts a node -----

  /** Ranges nest along the way from an ancestor to `b`. */
  lemma {:induction false} AncestorRange(nodes: seq<Node>, a: nat, b: nat)
    requires Tree(nodes) && b < NODE_LIMIT && Below(a, b) && !Empty(nodes[b])
    ensures !Empty(nodes[a]) && nodes[a].min <= nodes[b].min && nodes[b].max <= nodes[a].max
    ensures a != b ==> 2 * a + 2 < NODE_LIMIT && !Empty(nodes[2 * a + 1])
    ensures a != b && Branch(a, b) == 2 * a + 2 ==> nodes[2 * a + 1].max < nodes[b].min
    decreases b
  {
    NodeSized(nodes, b);
    if a != b {
      var p := Parent(b);
      assert Local(nodes, b) && Local(nodes, 2 * p + 1);
      WidthHalves(2 * p + 1);
      AncestorRange(nodes, a, p);
      if p == a {
        assert Branch(a, b) == b;
      } else {
        assert Branch(a, b) == Branch(a, p);
      }
    }
  }

  ghost predicate SameExceptChildren(nodes: seq<Node>, base: seq<Node>, b: nat)
  {
    |nodes| == |base| && forall i :: 0 <= i < |nodes| && i != 2 * b + 1 && i != 2 * b + 2 ==> nodes[i] == base[i]
  }

  /** Giving an unsplit node its two halves keeps the tree. */
  lemma SplitKeepsTree(base: seq<Node>, b: nat)
    requires Tree(base) && 2 * b + 2 < NODE_LIMIT && !Empty(base[b]) && Empty(base[2 * b + 1])
    ensures base[b].min < base[b].max && Empty(base[2 * b + 2])
    ensures !Empty(Lower(base[b])) && !Empty(Upper(base[b]))
    ensures Tree(base[2 * b + 1 := Lower(base[b])][2 * b + 2 := Upper(base[b])])
  {
    hide Width, Depth;
    var left, right := 2 * b + 1, 2 * b + 2;
    NodeSized(base, b);
    WidthHalves(left);
    WidthHalves(right);
    assert Parent(left) == b && Parent(right) == b;
    assert Local(base, left);
    var nodes := base[left := Lower(base[b])][right := Upper(base[b])];
    forall i | 0 < i < NODE_LIMIT
      ensures Local(nodes, i)
    {
      assert Local(base, i);
      var p := Parent(i);
      if p == left || p == right {
        assert Empty(base[i]);
      }
    }
  }

  /** The value of the first pair with the key. */
  function FirstIn(ps: seq<Pair>, key: Key): (r: Option<Key>)
    ensures r.Some? ==> Pair(key, r.value) in ps
    ensures r == None ==> forall p <- ps :: p.key != key
  {
    if ps == [] then None
    else if ps[0].key == key then Some(ps[0].value)
    else FirstIn(ps[1..], key)
  }

  lemma {:induction false} FirstAt(ps: seq<Pair>, key: Key, i: nat)
    requires i < |ps| && ps[i].key == key && forall j :: 0 <= j < i ==> ps[j].key != key
    ensures FirstIn(ps, key) == Some(ps[i].value)
  {
    if i > 0 {
      FirstAt(ps[1..], key, i - 1);
    }
  }

  ghost predicate Inside(w: seq<nat>)
  {
    forall k :: 0 <= k < |w| ==> w[k] < NODE_LIMIT
  }

  /** The buckets that `w` names searched from the last to the first. */
  ghost function SearchUp(buckets: seq<seq<Pair>>, w: seq<nat>, key: Key): (r: Option<Key>)
    requires |buckets| == NODE_LIMIT && Inside(w)
    ensures r.Some? ==> exists k :: 0 <= k < |w| && Pair(key, r.value) in buckets[w[k]]
    ensures r == None ==> forall k :: 0 <= k < |w| ==> forall p <- buckets[w[k]] :: p.key != key
  {
    if w == [] then None else
    match FirstIn(buckets[w[|w| - 1]], key)
    case Some(v) => Some(v)
    case None => SearchUp(buckets, w[..|w| - 1], key)
  }

  /** `r` is a right answer when `pairs` were inserted: a tuple for the key if there is one. */
  ghost predicate Right(pairs: set<Pair>, key: Key, r: Option<Key>)
  {
    match r
    case Some(v) => Pair(key, v) in pairs
    case None => forall p <- pairs :: p.key != key
  }

  /** Whatever is cached was stored, or never written. */
  ghost predicate Kept(ps: seq<Pair>, stored: set<Pair>)
  {
    forall p <- ps :: p == NO_PAIR || p in stored
  }

  class Heap {
    const hash: Key -> Key
    const nodes: array<Node>
    const slots: array<nat>
    const buckets: array<seq<Pair>>

    /** The single cache entry: the bucket it holds, if any, and its copy of the pairs. */
    var cacheId: Option<nat>
    var cachePairs: seq<Pair>

    /** Every pair that was inserted successfully. */
    ghost var stored: set<Pair>

    ghost predicate Valid()
      reads this, nodes, slots, buckets
    {
      && nodes.Length == slots.Length == buckets.Length == NODE_LIMIT
      && |cachePairs| == BUCKET_SIZE && Kept(cachePairs, stored)
      && Tree(nodes[..])
      && (forall i :: 0 <= i < NODE_LIMIT ==> slots[i] == |buckets[i]| <= BUCKET_SIZE)
      && (forall i, p :: 0 <= i < NODE_LIMIT && p in buckets[i] ==>
            Contains(nodes[i], hash(p.key)) && 2 * i + 1 < NODE_LIMIT && p in stored)
      && (forall p <- stored :: exists i :: 0 <= i < NODE_LIMIT && p in buckets[i])
    }

    /** `create`: all nodes and buckets empty, then the root range inserted. */
    constructor (hash: Key -> Key)
      ensures Valid() && stored == {} && this.hash == hash && cacheId == None
      ensures cachePairs == seq(BUCKET_SIZE, _ => NO_PAIR)
      ensures Empty(nodes[1]) && buckets[0] == []
      ensures fresh(nodes) && fresh(slots) && fresh(buckets)
    {
      this.hash := hash;
      nodes := new Node[NODE_LIMIT](_ => NO_NODE);
      slots := new nat[NODE_LIMIT](_ => 0);
      buckets := new seq<Pair>[NODE_LIMIT](_ => []);
      stored := {};
      cacheId, cachePairs := None, seq(BUCKET_SIZE, _ => NO_PAIR);
      new;
      nodes[0] := Node(0, KEY_MAX);
      forall i | 0 < i < NODE_LIMIT
        ensures Local(nodes[..], i)
      {
      }
    }

    /** `heap_find`: one step of the downward walk. The cursor is 0 or the first child
        of the node found last. */
    method Find(h: Key, cursor: nat, ghost last: nat) returns (id: Option<nat>, next: nat)
      requires nodes.Length == NODE_LIMIT && Tree(nodes[..])
      requires cursor == 0 || (cursor == 2 * last + 1 < NODE_LIMIT && Contains(nodes[last], h))
      ensures id == if cursor == 0 then Some(0) else NextDown(nodes[..], h, last)
      ensures next == if id.Some? then 2 * id.value + 1 else cursor
      ensures id.Some? ==> Contains(nodes[id.value], h) && 2 * id.value + 1 < NODE_LIMIT
    {
      var i := cursor;
      next := cursor;
      if cursor != 0 && !Empty(nodes[cursor]) {
        ChildrenPartition(nodes[..], h, last);
      }
      while i < NODE_LIMIT
        invariant i == cursor || (i == cursor + 1 && cursor == 2 * last + 1 && !Empty(nodes[cursor]) && !Contains(nodes[cursor], h))
        decreases NODE_LIMIT - i
      {
        if Empty(nodes[i]) {
          return None, next;
        } else if nodes[i].min <= h <= nodes[i].max {
          if 2 * i + 1 >= NODE_LIMIT {
            return None, next;
          }
          return Some(i), 2 * i + 1;
        }
        i := i + 1;
      }
      assert false;
    }

    /** `heap_insert` of a range inside node `b`: it ends up in the first free child of
        `b`, or nowhere when the left child already encloses it on the bottom level. */
    method HeapInsert(range: Node, ghost base: seq<Node>, ghost b: nat) returns (r: Option<nat>)
      requires nodes.Length == NODE_LIMIT && Tree(base) && SameExceptChildren(nodes[..], base, b)
      requires 2 * b + 2 < NODE_LIMIT && !Empty(base[b])
      requires base[b].min <= range.min <= range.max <= base[b].max
      requires !Empty(nodes[2 * b + 1]) ==>
                 if Encloses(nodes[2 * b + 1], range) then 2 * (2 * b + 1) + 1 >= NODE_LIMIT else Empty(nodes[2 * b + 2])
      modifies nodes
      ensures if Empty(old(nodes[2 * b + 1])) then r == Some(2 * b + 1)
              else if Encloses(old(nodes[2 * b + 1]), range) then r == None
              else r == Some(2 * b + 2)
      ensures nodes[..] == if r.Some? then old(nodes[..])[r.value := range] else old(nodes[..])
    {
      var i := 0;
      AllBelowRoot(b);
      while i < NODE_LIMIT
        invariant nodes[..] == old(nodes[..])
        invariant i < NODE_LIMIT ==>
          (|| OnTheWay(i, base, b, range)
           || i == 2 * b + 1
           || (i == 2 * b + 2 && !Empty(nodes[2 * b + 1]) && !Encloses(nodes[2 * b + 1], range)))
        invariant i >= NODE_LIMIT ==> !Empty(nodes[2 * b + 1]) && Encloses(nodes[2 * b + 1], range)
        decreases NODE_LIMIT - i
      {
        WayStep(i, base, b, range);
        if Empty(nodes[i]) {
          nodes[i] := range;
          return Some(i);
        } else if Encloses(nodes[i], range) {
          i := 2 * i + 1;
        } else {
          i := i + 1;
        }
      }
      r := None;
    }

    /** `bucket_split`: gives an unsplit node its two children; fails exactly when the
        node has children already. */
    method BucketSplit(b: nat) returns (ok: bool)
      requires nodes.Length == NODE_LIMIT && Tree(nodes[..]) && 2 * b + 2 < NODE_LIMIT && !Empty(nodes[b])
      requires !Empty(nodes[2 * b + 1]) ==> b >= 127
      modifies nodes
      ensures Tree(nodes[..]) && ok == Empty(old(nodes[2 * b + 1]))
      ensures SameExceptChildren(nodes[..], old(nodes[..]), b)
      ensures ok ==> !Empty(nodes[2 * b + 1]) && Empty(old(nodes[2 * b + 2]))
      ensures !ok ==> nodes[..] == old(nodes[..])
    {
      hide Width, Depth;
      ghost var base := nodes[..];
      NodeSized(base, b);
      WidthHalves(2 * b + 1);
      if Empty(base[2 * b + 1]) {
        SplitKeepsTree(base, b);
      } else {
        assert Local(base, 2 * b + 1);
      }
      var node := nodes[b];
      var small := HeapInsert(Lower(node), base, b);
      if small == None {
        return false;
      }
      var large := HeapInsert(Upper(node), base, b);
      ok := large != None;
    }

    /** A full bucket one level above the bottom covers the hash. */
    ghost predicate Stuck(h: Key)
      requires Valid()
      reads this, nodes, slots, buckets
    {
      exists b :: 127 <= b < 255 && Contains(nodes[b], h) && slots[b] == BUCKET_SIZE
    }

    /** The walk of `insert_item` down to the last node for the hash. */
    method FindDeepest(h: Key) returns (id: nat)
      requires nodes.Length == NODE_LIMIT && Tree(nodes[..])
      ensures id == Deepest(nodes[..], h, 0) && id < NODE_LIMIT
      ensures Contains(nodes[id], h) && 2 * id + 1 < NODE_LIMIT && NextDown(nodes[..], h, id) == None
    {
      var found, cursor := Find(h, 0, 0);
      id := 0;
      while true
        invariant id < NODE_LIMIT && cursor == 2 * id + 1 < NODE_LIMIT && Contains(nodes[id], h)
        invariant Deepest(nodes[..], h, 0) == Deepest(nodes[..], h, id)
        decreases NODE_LIMIT - id
      {
        found, cursor := Find(h, cursor, id);
        DeepestStep(nodes[..], h, id);
        if found == None {
          return;
        }
        id := found.value;
      }
    }

    lemma NotStuck(id: nat, h: Key)
      requires Valid() && id == Deepest(nodes[..], h, 0) && id < NODE_LIMIT
      requires id < 127 || slots[id] != BUCKET_SIZE
      ensures !Stuck(h)
    {
      forall b | 127 <= b < 255 && Contains(nodes[b], h)
        ensures b == id
      {
        WalkFromRoot(nodes[..], h, b);
        LevelSevenIsDeepest(nodes[..], h, 0, b);
      }
    }

    /** Splitting changes empty nodes only, so every bucket stays covered. */
    twostate lemma NodesGrow(base: seq<Node>)
      requires old(Valid()) && base == old(nodes[..]) && nodes.Length == NODE_LIMIT && Tree(nodes[..])
      requires unchanged(slots) && unchanged(buckets) && stored == old(stored) && cachePairs == old(cachePairs)
      requires forall i :: 0 <= i < NODE_LIMIT && !Empty(base[i]) ==> nodes[i] == base[i]
      ensures Valid()
    {
      forall i, p | 0 <= i < NODE_LIMIT && p in buckets[i]
        ensures Contains(nodes[i], hash(p.key)) && 2 * i + 1 < NODE_LIMIT && p in stored
      {
        assert p in old(buckets[i]) && Contains(base[i], hash(p.key));
      }
    }

    /** `bucket_append` of a pair whose hash the bucket covers. */
    method Append(id: nat, pair: Pair)
      requires Valid() && id < NODE_LIMIT && slots[id] < BUCKET_SIZE
      requires Contains(nodes[id], hash(pair.key)) && 2 * id + 1 < NODE_LIMIT
      modifies this`stored, slots, buckets
      ensures Valid() && stored == old(stored) + {pair}
      ensures buckets[..] == old(buckets[..])[id := old(buckets[id]) + [pair]]
    {
      buckets[id] := buckets[id] + [pair];
      slots[id] := slots[id] + 1;
      stored := stored + {pair};
      forall p | p in stored
        ensures exists i :: 0 <= i < NODE_LIMIT && p in buckets[i]
      {
        if p == pair {
          assert p in buckets[id];
        } else {
          var i :| 0 <= i < NODE_LIMIT && p in old(buckets[i]);
          assert p in buckets[i];
        }
      }
    }

    lemma EmptyNodesHoldNothing()
      requires Valid()
      ensures forall i :: 0 <= i < NODE_LIMIT && Empty(nodes[i]) ==> slots[i] == 0
    {
      forall i | 0 <= i < NODE_LIMIT && Empty(nodes[i])
        ensures slots[i] == 0
      {
        assert |buckets[i]| > 0 ==> buckets[i][0] in buckets[i] && Contains(nodes[i], hash(buckets[i][0].key));
      }
    }

    /** The full-bucket branch of `insert_item`: split, then step to a new bucket. */
    method MakeRoom(h: Key, id: nat) returns (r: Option<nat>)
      requires Valid() && id < NODE_LIMIT && 2 * id + 1 < NODE_LIMIT
      requires Contains(nodes[id], h) && NextDown(nodes[..], h, id) == None
      modifies nodes
      ensures Valid() && (r == None <==> id >= 127)
      ensures r.Some? ==> && r.value < NODE_LIMIT && slots[r.value] == 0
                          && Contains(nodes[r.value], h) && 2 * r.value + 1 < NODE_LIMIT
    {
      ghost var base := nodes[..];
      EmptyNodesHoldNothing();
      var split := BucketSplit(id);
      NodesGrow(base);
      if !split {
        return None;
      }
      ChildrenPartition(nodes[..], h, id);
      var cursor;
      r, cursor := Find(h, 2 * id + 1, id);
      assert r.Some? ==> Empty(base[r.value]);
    }

    /** `insert_item`. It succeeds unless the bucket for the key is full and its
        children would be on the bottom level. */
    method Insert(key: Key, value: Key) returns (ok: bool)
      requires Valid()
      modifies this`stored, nodes, slots, buckets
      ensures Valid() && stored == if ok then old(stored) + {Pair(key, value)} else old(stored)
      ensures ok <==> !old(Stuck(hash(key)))
      ensures var d := old(Deepest(nodes[..], hash(key), 0));
              old(slots[d]) < BUCKET_SIZE ==>
                nodes[..] == old(nodes[..]) && buckets[..] == old(buckets[..])[d := old(buckets[d]) + [Pair(key, value)]]
    {
      hide Tree, Deepest, NextDown;
      var h := hash(key);
      var id := FindDeepest(h);
      if id < 127 || slots[id] != BUCKET_SIZE {
        NotStuck(id, h);
      } else {
        assert Stuck(h);
      }
      if slots[id] == BUCKET_SIZE {
        var r := MakeRoom(h, id);
        if r == None {
          return false;
        }
        id := r.value;
      }
      Append(id, Pair(key, value));
      ok := true;
    }

    /** The cache entry after loading bucket `id` over an earlier entry. */
    ghost predicate CachedFrom(wasId: Option<nat>, was: seq<Pair>, id: nat)
      requires Valid() && |was| == BUCKET_SIZE && id < NODE_LIMIT
      reads this, nodes, slots, buckets
    {
      && cacheId == Some(id)
      && (wasId == Some(id) ==> cachePairs == was)
      && (wasId != Some(id) ==> cachePairs[..slots[id]] == buckets[id])
      && (wasId != Some(id) && slots[id] > 0 ==> cachePairs[slots[id]..] == was[slots[id]..])
    }

    /** `bucket_load`: a cached copy is taken as it is, however old; otherwise the
        occupied part of the bucket is read over whatever the entry held. */
    method BucketLoad(id: nat)
      requires Valid() && id < NODE_LIMIT
      modifies this`cacheId, this`cachePairs
      ensures Valid() && CachedFrom(old(cacheId), old(cachePairs), id)
    {
      if cacheId == Some(id) {
        return;
      }
      var size := if slots[id] == 0 then BUCKET_SIZE else slots[id];
      var pairs := buckets[id] + seq(BUCKET_SIZE - |buckets[id]|, _ => NO_PAIR);
      assert slots[id] > 0 ==> pairs[..size] == buckets[id];
      cachePairs := pairs[..size] + cachePairs[size..];
      cacheId := Some(id);
    }

    /** What a scan of bucket `id` sees: its cached copy, however old, up to the number of
        pairs the bucket has by now. */
    ghost function Shown(id: nat): seq<Pair>
      requires Valid() && id < NODE_LIMIT
      reads this, nodes, slots, buckets
    {
      if cacheId == Some(id) then cachePairs[..slots[id]] else buckets[id]
    }

    /** Scanning one bucket through the cache. */
    method ScanBucket(key: Key, id: nat) returns (r: Option<Key>)
      requires Valid() && id < NODE_LIMIT
      modifies this`cacheId, this`cachePairs
      ensures Valid() && CachedFrom(old(cacheId), old(cachePairs), id)
      ensures r == FirstIn(old(Shown(id)), key)
    {
      BucketLoad(id);
      assert cachePairs[..slots[id]] == old(Shown(id));
      for i := 0 to slots[id]
        invariant Valid() && CachedFrom(old(cacheId), old(cachePairs), id) && cachePairs[..slots[id]] == old(Shown(id))
        invariant forall j :: 0 <= j < i ==> old(Shown(id))[j].key != key
      {
        assert cachePairs[i] == cachePairs[..slots[id]][i];
        if cachePairs[i].key == key {
          FirstAt(old(Shown(id)), key, i);
          return Some(cachePairs[i].value);
        }
      }
      r := None;
    }

    /** The nodes of the walk above the deepest one. */
    ghost function Above(key: Key): (w: seq<nat>)
      requires Valid()
      reads this, nodes, slots, buckets
      ensures Inside(w)
    {
      WalkInside(nodes[..], hash(key), 0);
      var w := Walk(nodes[..], hash(key), 0);
      w[..|w| - 1]
    }

    /** What the first `get_next` answers. Only the deepest bucket can still be the cached
        one when its turn comes: loading it evicts any other. */
    ghost function Answer(key: Key): Option<Key>
      requires Valid()
      reads this, nodes, slots, buckets
    {
      match FirstIn(Shown(Deepest(nodes[..], hash(key), 0)), key)
      case Some(v) => Some(v)
      case None => SearchUp(buckets[..], Above(key), key)
    }

    /** The cached copy does no harm to a lookup: it is of another bucket than the deepest,
        or what it shows for the key was stored, or it shows nothing that the lookup needs. */
    ghost predicate CopyServes(key: Key)
      requires Valid()
      reads this, nodes, slots, buckets
    {
      var d := Deepest(nodes[..], hash(key), 0);
      cacheId == Some(d) ==>
        match FirstIn(cachePairs[..slots[d]], key)
        case Some(v) => Pair(key, v) == NO_PAIR ==> NO_PAIR in stored
        case None => (exists p <- buckets[d] :: p.key == key) ==> exists k :: 0 <= k < |Above(key)| && exists p <- buckets[Above(key)[k]] :: p.key == key
    }

    /** A lookup answers rightly exactly when the cached copy serves it. */
    lemma RightIff(key: Key)
      requires Valid()
      ensures Right(stored, key, Answer(key)) <==> CopyServes(key)
    {
      hide Walk, Tree;
      var h := hash(key);
      var d := Deepest(nodes[..], h, 0);
      var w := Walk(nodes[..], h, 0);
      WalkInside(nodes[..], h, 0);
      assert w == Above(key) + [d];
      forall p | p in stored && p.key == key
        ensures p in buckets[d] || exists k :: 0 <= k < |Above(key)| && p in buckets[Above(key)[k]]
      {
        var j :| 0 <= j < NODE_LIMIT && p in buckets[j];
        WalkFromRoot(nodes[..], h, j);
      }
      forall p | p in Shown(d)
        ensures p == NO_PAIR || p in stored
      {
      }
    }

    /** A current copy serves every lookup, and so does one of any other bucket. */
    lemma CurrentCopyServes(key: Key)
      requires Valid()
      requires var d := Deepest(nodes[..], hash(key), 0);
               cacheId == Some(d) ==> cachePairs[..slots[d]] == buckets[d]
      ensures CopyServes(key)
    {
    }

    /** The buckets of `w` scanned from the last to the first; none is cached, the entry
        being one further down. */
    method ScanUp(key: Key, w: seq<nat>) returns (r: Option<Key>)
      requires Valid() && Inside(w) && Ascending(w)
      requires cacheId.Some? && forall k :: 0 <= k < |w| ==> w[k] < cacheId.value
      modifies this`cacheId, this`cachePairs
      ensures Valid() && r == SearchUp(buckets[..], w, key)
    {
      hide Tree, FirstIn, Kept, CachedFrom;
      var i := |w|;
      assert w[..|w|] == w;
      while i > 0
        invariant 0 <= i <= |w| && Valid() && cacheId.Some?
        invariant forall k :: 0 <= k < i ==> w[k] < cacheId.value
        invariant SearchUp(buckets[..], w, key) == SearchUp(buckets[..], w[..i], key)
      {
        i := i - 1;
        assert w[..i + 1][..i] == w[..i];
        assert Shown(w[i]) == buckets[w[i]];
        r := ScanBucket(key, w[i]);
        if r.Some? {
          return;
        }
      }
      assert w[..0] == [];
      r := None;
    }

    /** The first `get_next` of an equality search: all buckets on the walk, deepest
        first. It finds a tuple for the key iff one was inserted, unless the cached copy
        of the deepest bucket hides it. */
    method GetFirst(key: Key) returns (r: Option<Key>)
      requires Valid()
      modifies this`cacheId, this`cachePairs
      ensures Valid() && r == old(Answer(key))
      ensures Right(stored, key, r) <==> old(CopyServes(key))
      ensures Walk(nodes[..], hash(key), 0) == [0] ==> CachedFrom(old(cacheId), old(cachePairs), 0)
    {
      RightIff(key);
      ghost var answer := Answer(key);
      var h := hash(key);
      var visited := CollectWalk(h);
      var last, rest := visited[|visited| - 1], visited[..|visited| - 1];
      WalkIncreases(nodes[..], h, 0);
      assert answer == match FirstIn(Shown(last), key) case Some(v) => Some(v) case None => SearchUp(buckets[..], rest, key);
      hide Walk, Tree, CopyServes, Right, FirstIn, SearchUp, Answer, Shown;
      r := ScanBucket(key, last);
      if r == None && rest != [] {
        r := ScanUp(key, rest);
      }
    }

    /** The downward path, as `get_next` records it. */
    method CollectWalk(h: Key) returns (visited: seq<nat>)
      requires Valid()
      ensures visited == Walk(nodes[..], h, 0)
      ensures forall j :: 0 <= j < |visited| ==> visited[j] < NODE_LIMIT
    {
      hide Walk, NextDown, Tree;
      visited := [];
      var cursor: nat, last: nat := 0, 0;
      WalkShort(nodes[..], h, 0);
      WalkOnward(nodes[..], h, 0);
      for i := 0 to NODE_DEPTH
        invariant |visited| == i
        invariant cursor == (if i == 0 then 0 else 2 * last + 1)
        invariant i > 0 ==> cursor < NODE_LIMIT && Contains(nodes[last], h)
        invariant i > 0 ==> visited + Onward(nodes[..], h, last) == Walk(nodes[..], h, 0)
        invariant forall j :: 0 <= j < |visited| ==> visited[j] < NODE_LIMIT
      {
        var found, next := Find(h, cursor, last);
        if found == None {
          return;
        }
        WalkOnward(nodes[..], h, found.value);
        ghost var onward := Onward(nodes[..], h, found.value);
        assert visited + ([found.value] + onward) == (visited + [found.value]) + onward;
        visited := visited + [found.value];
        cursor, last := next, found.value;
      }
      assert false;
    }
  }

  /** The part of a walk below node `i`. */
  function Onward(nodes: seq<Node>, h: Key, i: nat): seq<nat>
    requires |nodes| == NODE_LIMIT && i < NODE_LIMIT
  {
    match NextDown(nodes, h, i) case None => [] case Some(c) => Walk(nodes, h, c)
  }

  lemma WalkOnward(nodes: seq<Node>, h: Key, i: nat)
    requires |nodes| == NODE_LIMIT && i < NODE_LIMIT
    ensures Walk(nodes, h, i) == [i] + Onward(nodes, h, i)
  {
  }

  ghost predicate Ascending(w: seq<nat>)
  {
    forall j, k :: 0 <= j < k < |w| ==> w[j] < w[k]
  }

  lemma {:induction false} WalkIncreases(nodes: seq<Node>, h: Key, i: nat)
    requires |nodes| == NODE_LIMIT && i < NODE_LIMIT
    ensures Ascending(Walk(nodes, h, i)) && Walk(nodes, h, i)[0] == i
    decreases NODE_LIMIT - i
  {
    var next := NextDown(nodes, h, i);
    if next.Some? {
      WalkIncreases(nodes, h, next.value);
    }
  }

  /** The deepest node that the walk reaches. */
  function Deepest(nodes: seq<Node>, h: Key, i: nat): (d: nat)
    requires |nodes| == NODE_LIMIT && i < NODE_LIMIT
    ensures d < NODE_LIMIT
  {
    var w := Walk(nodes, h, i);
    WalkInside(nodes, h, i);
    w[|w| - 1]
  }

  lemma {:induction false} WalkInside(nodes: seq<Node>, h: Key, i: nat)
    requires |nodes| == NODE_LIMIT && i < NODE_LIMIT
    ensures forall k :: 0 <= k < |Walk(nodes, h, i)| ==> Walk(nodes, h, i)[k] < NODE_LIMIT
    decreases NODE_LIMIT - i
  {
    var next := NextDown(nodes, h, i);
    if next.Some? {
      WalkInside(nodes, h, next.value);
    }
  }

  lemma DeepestStep(nodes: seq<Node>, h: Key, i: nat)
    requires |nodes| == NODE_LIMIT && i < NODE_LIMIT
    ensures Deepest(nodes, h, i) ==
            match NextDown(nodes, h, i) case None => i case Some(c) => Deepest(nodes, h, c)
  {
  }

  /** A node one level above the bottom is where a walk through it ends. */
  lemma {:induction false} LevelSevenIsDeepest(nodes: seq<Node>, h: Key, i: nat, b: nat)
    requires |nodes| == NODE_LIMIT && i < NODE_LIMIT && b >= 127 && b in Walk(nodes, h, i)
    ensures Deepest(nodes, h, i) == b
    decreases NODE_LIMIT - i
  {
    var next := NextDown(nodes, h, i);
    if next.Some? && b != i {
      LevelSevenIsDeepest(nodes, h, next.value, b);
    }
  }

  predicate Encloses(n: Node, range: Node)
  {
    n.min <= range.min && range.max <= n.max
  }

  /** `i` is an ancestor of `b` or `b` itself, or the left sibling of one. */
  ghost predicate OnTheWay(i: nat, base: seq<Node>, b: nat, range: Node)
    requires |base| == NODE_LIMIT
  {
    || Below(i, b)
    || (i < NODE_LIMIT && i % 2 == 1 && Below(i + 1, b) && !Empty(base[i]) && base[i].max < range.min && i < b)
  }

  lemma WayStep(i: nat, base: seq<Node>, b: nat, range: Node)
    requires Tree(base) && 2 * b + 2 < NODE_LIMIT && !Empty(base[b])
    requires base[b].min <= range.min <= range.max <= base[b].max
    ensures Below(i, b) ==> i <= b && !Empty(base[i]) && Encloses(base[i], range)
    ensures Below(i, b) && i != b ==> OnTheWay(2 * i + 1, base, b, range) && 2 * i + 1 < NODE_LIMIT
    ensures OnTheWay(i, base, b, range) && !Below(i, b) ==>
              && !Empty(base[i]) && !Encloses(base[i], range) && Below(i + 1, b) && i + 1 < NODE_LIMIT
              && i != 2 * b + 1 && i != 2 * b + 2
    ensures Below(i, b) ==> i != 2 * b + 1 && i != 2 * b + 2
  {
    if Below(i, b) {
      AncestorRange(base, i, b);
      if i != b {
        assert Branch(i, b) == 2 * i + 1 || Branch(i, b) == 2 * i + 2;
      }
    }
  }

  /** One insertion request of a run. */
  datatype Request = Request(key: Key, value: Key)

  /** The pairs that a run of insertions stored. */
  ghost function Accepted(items: seq<Request>, oks: seq<bool>): set<Pair>
    requires |items| == |oks|
  {
    set i | 0 <= i < |items| && oks[i] :: Pair(items[i].key, items[i].value)
  }

  /** After any run of insertions on a fresh heap, successful or not, the first
      equality lookup finds a tuple for the key iff one was accepted for it. */
  method RunThenLookup(hash: Key -> Key, items: seq<Request>, key: Key) returns (oks: seq<bool>, r: Option<Key>)
    ensures |oks| == |items|
    ensures r.Some? ==> Pair(key, r.value) in Accepted(items, oks)
    ensures r == None ==> forall i :: 0 <= i < |items| && oks[i] ==> items[i].key != key
  {
    var heap := new Heap(hash);
    oks := [];
    for i := 0 to |items|
      invariant |oks| == i && heap.Valid() && heap.cacheId == None
      invariant fresh(heap) && fresh(heap.nodes) && fresh(heap.slots) && fresh(heap.buckets)
      invariant heap.stored == Accepted(items[..i], oks)
    {
      var ok := heap.Insert(items[i].key, items[i].value);
      assert items[..i + 1] == items[..i] + [items[i]];
      AcceptedStep(items[..i], oks, items[i], ok);
      oks := oks + [ok];
    }
    assert items[..|items|] == items;
    r := heap.GetFirst(key);
    forall i | 0 <= i < |items| && oks[i]
      ensures r == None ==> items[i].key != key
    {
      assert Pair(items[i].key, items[i].value) in Accepted(items, oks);
    }
  }

  lemma AcceptedStep(items: seq<Request>, oks: seq<bool>, item: Request, ok: bool)
    requires |items| == |oks|
    ensures Accepted(items + [item], oks + [ok]) ==
            if ok then Accepted(items, oks) + {Pair(item.key, item.value)} else Accepted(items, oks)
  {
    var a, b := Accepted(items, oks), Accepted(items + [item], oks + [ok]);
    forall p | p in a
      ensures p in b
    {
      var i :| 0 <= i < |items| && oks[i] && p == Pair(items[i].key, items[i].value);
      assert (oks + [ok])[i] && p == Pair((items + [item])[i].key, (items + [item])[i].value);
    }
    if ok {
      var n := |items|;
      assert (oks + [ok])[n] && Pair((items + [item])[n].key, (items + [item])[n].value) in b;
    }
  }

  lemma LoneRoot(nodes: seq<Node>, h: Key)
    requires |nodes| == NODE_LIMIT && Empty(nodes[1])
    ensures Walk(nodes, h, 0) == [0] && Deepest(nodes, h, 0) == 0
  {
  }

  /** The cold cache matters: a bucket that a lookup has cached is not refreshed by a
      later insertion, so the next lookup misses what was just inserted. */
  method WarmCacheMisses(hash: Key -> Key, k1: Key, v1: Key, k2: Key, v2: Key) returns (ok: bool, r: Option<Key>)
    requires k1 != k2 && k2 != 0
    ensures ok && r == None
  {
    var heap := LookedUpOnce(hash, k1, v1);
    hide Heap.Stuck, Walk, Deepest, Tree, Heap.CopyServes, Right;
    RootNeverStuck(heap, hash(k2));
    LoneRoot(heap.nodes[..], hash(k2));
    ok := heap.Insert(k2, v2);
    assert heap.Above(k2) == [];
    r := heap.GetFirst(k2);
  }

  /** A heap with one pair, which a lookup has cached. */
  method LookedUpOnce(hash: Key -> Key, k: Key, v: Key) returns (heap: Heap)
    ensures fresh(heap) && fresh(heap.nodes) && fresh(heap.slots) && fresh(heap.buckets)
    ensures heap.Valid() && heap.hash == hash && Empty(heap.nodes[1]) && heap.cacheId == Some(0)
    ensures heap.buckets[0] == [Pair(k, v)] && heap.cachePairs[0] == Pair(k, v) && heap.cachePairs[1] == NO_PAIR
  {
    hide Heap.Stuck, Walk, Deepest, Heap.Answer, Heap.CopyServes, Right, Tree;
    heap := new Heap(hash);
    LoneRoot(heap.nodes[..], hash(k));
    RootNeverStuck(heap, hash(k));
    var _ := heap.Insert(k, v);
    var _ := heap.GetFirst(k);
    assert heap.cachePairs[0] == heap.cachePairs[..1][0];
    assert heap.cachePairs[1] == heap.cachePairs[1..][0];
  }

  lemma RootNeverStuck(heap: Heap, h: Key)
    requires heap.Valid() && Empty(heap.nodes[1])
    ensures !heap.Stuck(h)
  {
    LoneRoot(heap.nodes[..], h);
    heap.NotStuck(0, h);
  }
}
