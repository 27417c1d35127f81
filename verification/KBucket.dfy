/** One bucket of the routing table: least recently seen node first, at most `size` nodes. */
module KBucket {
  import opened Bytes
  import opened Keys

  /** A bucket as a value. */
  datatype Bucket = Bucket(nodes: seq<Node>, size: nat, depth: nat)

  function DropAt(nodes: seq<Node>, p: nat): seq<Node>
    requires p < |nodes|
  {
    nodes[..p] + nodes[p + 1..]
  }

  function Added(b: Bucket, node: Node): Bucket {
    match Position(b.nodes, node.id)
    case Some(p) => b.(nodes := DropAt(b.nodes, p) + [node])
    case None => if |b.nodes| >= b.size then b else b.(nodes := b.nodes + [node])
  }

  function Evicted(b: Bucket, node: Node): Bucket {
    Added(if b.nodes == [] then b else b.(nodes := b.nodes[1..]), node)
  }

  function Removed(b: Bucket, key: Key): Bucket {
    match Position(b.nodes, key)
    case Some(p) => b.(nodes := DropAt(b.nodes, p))
    case None => b
  }

  predicate GetBit(key: Key, bitIndex: nat) {
    bitIndex / 8 < 32 && Bit(key.id, bitIndex)
  }

  function InsertAll(b: Bucket, nodes: seq<Node>, depth: nat, bit: bool): Bucket
    decreases |nodes|
  {
    if nodes == [] then b
    else InsertAll(if GetBit(nodes[0].id, depth) == bit then Added(b, nodes[0]) else b, nodes[1..], depth, bit)
  }

  /** The two halves of a split. The constructor takes the size first, and is given the depth: the halves hold at most
      `depth + 1` nodes. */
  function SplitHalf(b: Bucket, bit: bool): Bucket {
    InsertAll(Bucket([], b.depth + 1, b.size), b.nodes, b.depth, bit)
  }

  class KBucket {
    var nodes: seq<Node>
    const bucketSize: nat
    const depth: nat

    function View(): Bucket
      reads this
    {
      Bucket(nodes, bucketSize, depth)
    }

    constructor (bucketSize: nat, depth: nat)
      ensures View() == Bucket([], bucketSize, depth)
    {
      nodes, this.bucketSize, this.depth := [], bucketSize, depth;
    }

    /** `KBucket::insert`. */
    method Insert(node: Node)
      modifies this
      ensures View() == Added(old(View()), node)
    {
      var found := Position(nodes, node.id);
      if found.Some? {
        nodes := DropAt(nodes, found.value);
        nodes := nodes + [node];
        return;
      }
      if |nodes| >= bucketSize {
        return;
      }
      nodes := nodes + [node];
    }

    /** `KBucket::envict_and_insert`. */
    method EvictAndInsert(node: Node)
      modifies this
      ensures View() == Evicted(old(View()), node)
    {
      if nodes != [] {
        nodes := nodes[1..];
      }
      Insert(node);
    }

    /** `KBucket::remove`. */
    method Remove(key: Key)
      modifies this
      ensures View() == Removed(old(View()), key)
    {
      var found := Position(nodes, key);
      if found.Some? {
        nodes := DropAt(nodes, found.value);
      }
    }

    /** `KBucket::split`, with its constructor arguments in the order the code passes them. */
    method Split() returns (left: KBucket, right: KBucket)
      modifies this
      ensures fresh(left) && fresh(right) && left != right
      ensures left.View() == SplitHalf(old(View()), false) && right.View() == SplitHalf(old(View()), true)
    {
      var nextDepth := depth + 1;
      left := new KBucket(nextDepth, bucketSize);
      right := new KBucket(nextDepth, bucketSize);
      ghost var whole := View();
      var drained := nodes;
      nodes := [];
      for i := 0 to |drained|
        invariant InsertAll(left.View(), drained[i..], depth, false) == SplitHalf(whole, false)
        invariant InsertAll(right.View(), drained[i..], depth, true) == SplitHalf(whole, true)
      {
        assert drained[i..][0] == drained[i] && drained[i..][1..] == drained[i + 1..];
        if GetBit(drained[i].id, depth) {
          right.Insert(drained[i]);
        } else {
          left.Insert(drained[i]);
        }
      }
    }
  }

  /** A bucket in order: within its size, no key twice. */
  ghost predicate Tidy(b: Bucket) {
    |b.nodes| <= b.size && DistinctIds(b.nodes)
  }

  lemma {:induction false} DropAtIndex(nodes: seq<Node>, p: nat, i: nat)
    requires p < |nodes| && i < |nodes| - 1
    ensures |DropAt(nodes, p)| == |nodes| - 1 && DropAt(nodes, p)[i] == nodes[if i < p then i else i + 1]
  {
  }

  lemma {:induction false} DropAtDistinct(nodes: seq<Node>, p: nat)
    requires DistinctIds(nodes) && p < |nodes|
    ensures DistinctIds(DropAt(nodes, p))
  {
    forall i, j | 0 <= i < j < |nodes| - 1 ensures DropAt(nodes, p)[i].id != DropAt(nodes, p)[j].id {
      DropAtIndex(nodes, p, i);
      DropAtIndex(nodes, p, j);
    }
  }

  lemma {:induction false} DropAtFacts(nodes: seq<Node>, p: nat)
    requires DistinctIds(nodes) && p < |nodes|
    ensures DistinctIds(DropAt(nodes, p))
    ensures forall n :: n in DropAt(nodes, p) <==> n in nodes && n.id != nodes[p].id
  {
    DropAtDistinct(nodes, p);
    var d := DropAt(nodes, p);
    forall n | n in nodes && n.id != nodes[p].id ensures n in d {
      var i :| 0 <= i < |nodes| && nodes[i] == n;
      DropAtIndex(nodes, p, if i < p then i else i - 1);
    }
    forall n | n in d ensures n in nodes && n.id != nodes[p].id {
      var i :| 0 <= i < |d| && d[i] == n;
      DropAtIndex(nodes, p, i);
    }
  }

  lemma {:induction false} AddedTidy(b: Bucket, node: Node)
    requires Tidy(b)
    ensures var c := Added(b, node);
            && Tidy(c) && c.size == b.size && c.depth == b.depth
            && (forall n :: n in c.nodes ==> n == node || n in b.nodes)
            && (forall n :: n in b.nodes && n.id != node.id ==> n in c.nodes)
            && (HasKey(b.nodes, node.id) || |b.nodes| < b.size ==> c.nodes != [] && c.nodes[|c.nodes| - 1] == node)
  {
    match Position(b.nodes, node.id)
    case Some(p) => DropAtFacts(b.nodes, p);
    case None =>
  }

  lemma {:induction false} RemovedTidy(b: Bucket, key: Key)
    requires Tidy(b)
    ensures Tidy(Removed(b, key)) && Removed(b, key).size == b.size
    ensures forall n :: n in Removed(b, key).nodes <==> n in b.nodes && n.id != key
  {
    match Position(b.nodes, key)
    case Some(p) => DropAtFacts(b.nodes, p);
    case None => assert forall i :: 0 <= i < |b.nodes| ==> b.nodes[i].id != key;
  }

  lemma {:induction false} EvictedTidy(b: Bucket, node: Node)
    requires Tidy(b) && b.size > 0
    ensures Tidy(Evicted(b, node)) && Evicted(b, node).size == b.size
    ensures forall n :: n in Evicted(b, node).nodes ==> n == node || n in b.nodes
    ensures var c := Evicted(b, node).nodes; c != [] && c[|c| - 1] == node
  {
    var rest := if b.nodes == [] then b else b.(nodes := b.nodes[1..]);
    AddedTidy(rest, node);
  }

  lemma {:induction false} WithoutPresent(nodes: seq<Node>, p: nat)
    requires DistinctIds(nodes) && p < |nodes|
    ensures Without(nodes, nodes[p].id) == DropAt(nodes, p)
  {
    var rest := nodes[1..];
    if p == 0 {
      assert !HasKey(rest, nodes[0].id) by { assert forall i :: 0 <= i < |rest| ==> rest[i] == nodes[i + 1]; }
      WithoutAbsent(rest, nodes[0].id);
    } else {
      WithoutPresent(rest, p - 1);
      assert DropAt(nodes, p) == [nodes[0]] + DropAt(rest, p - 1);
    }
  }

  /** What the three operations leave, and in which order: the node that was seen goes to the end, all others stay as
      they are. A full bucket ignores a node it does not hold; an eviction takes the first node. */
  lemma {:induction false} SeenGoesLast(b: Bucket, node: Node)
    requires Tidy(b)
    ensures Added(b, node).nodes ==
            if HasKey(b.nodes, node.id) || |b.nodes| < b.size then Without(b.nodes, node.id) + [node] else b.nodes
    ensures b.size > 0 ==>
              Evicted(b, node).nodes == Without(if b.nodes == [] then [] else b.nodes[1..], node.id) + [node]
    ensures Removed(b, node.id).nodes == Without(b.nodes, node.id)
  {
    AddedIs(b, node);
    var rest := if b.nodes == [] then b else b.(nodes := b.nodes[1..]);
    AddedIs(rest, node);
  }

  lemma {:induction false} AddedIs(b: Bucket, node: Node)
    requires Tidy(b)
    ensures Added(b, node).nodes ==
            if HasKey(b.nodes, node.id) || |b.nodes| < b.size then Without(b.nodes, node.id) + [node] else b.nodes
    ensures Removed(b, node.id).nodes == Without(b.nodes, node.id)
  {
    match Position(b.nodes, node.id)
    case Some(p) => WithoutPresent(b.nodes, p);
    case None => WithoutAbsent(b.nodes, node.id);
  }

  /** Operations on one bucket. */
  datatype Use = Insert(node: Node) | EvictAndInsert(node: Node) | Remove(key: Key)

  function Used(b: Bucket, u: Use): Bucket {
    match u
    case Insert(n) => Added(b, n)
    case EvictAndInsert(n) => Evicted(b, n)
    case Remove(k) => Removed(b, k)
  }

  function UsedAll(b: Bucket, uses: seq<Use>): Bucket {
    if uses == [] then b else Used(UsedAll(b, Front(uses)), Last(uses))
  }

  predicate Sees(u: Use, key: Key) {
    !u.Remove? && u.node.id == key
  }

  /** How long ago a key was seen last; the length of the history if never. */
  function Age(uses: seq<Use>, key: Key): (age: nat)
    ensures age < |uses| ==> Sees(uses[|uses| - 1 - age], key)
  {
    if uses == [] || Sees(Last(uses), key) then 0 else 1 + Age(Front(uses), key)
  }

  /** From the least to the most recently seen, each node as it was seen last. */
  ghost predicate ByAge(nodes: seq<Node>, uses: seq<Use>) {
    && (forall i, j :: 0 <= i < j < |nodes| ==> Age(uses, nodes[i].id) > Age(uses, nodes[j].id))
    && forall i :: 0 <= i < |nodes| ==> AsSeen(nodes[i], uses)
  }

  ghost predicate AsSeen(n: Node, uses: seq<Use>) {
    var age := Age(uses, n.id);
    age < |uses| && uses[|uses| - 1 - age].node == n
  }

  lemma {:induction false} OneOlder(n: Node, uses: seq<Use>, u: Use)
    requires AsSeen(n, uses) && !Sees(u, n.id)
    ensures Age(uses + [u], n.id) == Age(uses, n.id) + 1 && AsSeen(n, uses + [u])
  {
    assert Front(uses + [u]) == uses;
  }

  lemma {:induction false} SeenNow(uses: seq<Use>, u: Use)
    requires !u.Remove?
    ensures Age(uses + [u], u.node.id) == 0 && AsSeen(u.node, uses + [u])
  {
  }

  /** Nodes not seen now keep their order and are one step older. */
  lemma {:induction false} OlderByOne(nodes: seq<Node>, uses: seq<Use>, u: Use)
    requires ByAge(nodes, uses) && forall i :: 0 <= i < |nodes| ==> !Sees(u, nodes[i].id)
    ensures ByAge(nodes, uses + [u])
    ensures !u.Remove? ==> ByAge(nodes + [u.node], uses + [u])
  {
    forall i | 0 <= i < |nodes|
      ensures Age(uses + [u], nodes[i].id) == Age(uses, nodes[i].id) + 1 && AsSeen(nodes[i], uses + [u])
    {
      assert AsSeen(nodes[i], uses);
      OneOlder(nodes[i], uses, u);
    }
    if !u.Remove? { SeenNow(uses, u); }
  }

  lemma {:induction false} SomeByAge(nodes: seq<Node>, p: nat, uses: seq<Use>)
    requires ByAge(nodes, uses) && p < |nodes|
    ensures ByAge(DropAt(nodes, p), uses)
  {
    var d := DropAt(nodes, p);
    forall i | 0 <= i < |d| ensures d[i] == nodes[if i < p then i else i + 1] { DropAtIndex(nodes, p, i); }
  }

  lemma {:induction false} AddedByAge(b: Bucket, uses: seq<Use>, u: Use)
    requires Tidy(b) && ByAge(b.nodes, uses) && !u.Remove?
    ensures ByAge(Added(b, u.node).nodes, uses + [u])
  {
    match Position(b.nodes, u.node.id)
    case Some(p) =>
      SomeByAge(b.nodes, p, uses);
      DropAtFacts(b.nodes, p);
      var d := DropAt(b.nodes, p);
      assert forall i :: 0 <= i < |d| ==> d[i] in d;
      OlderByOne(d, uses, u);
    case None =>
      OlderByOne(b.nodes, uses, u);
  }

  /** After every history of a bucket its nodes stand from the least to the most recently seen, so the first one, which
      is pinged and evicted, is the one not heard of for longest; and each has the address it was last seen with. */
  lemma {:induction false} LeastRecentFirst(size: nat, depth: nat, uses: seq<Use>)
    ensures var b := UsedAll(Bucket([], size, depth), uses);
            && b.size == size && Tidy(b) && ByAge(b.nodes, uses)
            && (size > 0 && uses != [] && Last(uses).EvictAndInsert? ==>
                  b.nodes != [] && Last(b.nodes) == Last(uses).node)
  {
    if uses != [] {
      var before, u := Front(uses), Last(uses);
      LeastRecentFirst(size, depth, before);
      assert uses == before + [u];
      UseKeeps(UsedAll(Bucket([], size, depth), before), before, u);
    }
  }

  lemma {:induction false} UseKeeps(b: Bucket, uses: seq<Use>, u: Use)
    requires Tidy(b) && ByAge(b.nodes, uses)
    ensures var c := Used(b, u); c.size == b.size && Tidy(c) && ByAge(c.nodes, uses + [u])
    ensures b.size > 0 && u.EvictAndInsert? ==> Used(b, u).nodes != [] && Last(Used(b, u).nodes) == u.node
  {
    match u
    case Insert(n) =>
      AddedTidy(b, n);
      AddedByAge(b, uses, u);
    case EvictAndInsert(n) => EvictedByAge(b, uses, u);
    case Remove(k) =>
      RemovedTidy(b, k);
      RemovedByAge(b, uses, u);
  }

  lemma {:induction false} EvictedByAge(b: Bucket, uses: seq<Use>, u: Use)
    requires Tidy(b) && ByAge(b.nodes, uses) && u.EvictAndInsert?
    ensures var c := Evicted(b, u.node); c.size == b.size && Tidy(c) && ByAge(c.nodes, uses + [u])
    ensures b.size > 0 ==> Evicted(b, u.node).nodes != [] && Last(Evicted(b, u.node).nodes) == u.node
  {
    var rest := if b.nodes == [] then b else b.(nodes := b.nodes[1..]);
    if b.nodes != [] {
      SomeByAge(b.nodes, 0, uses);
      assert DropAt(b.nodes, 0) == b.nodes[1..];
    }
    AddedTidy(rest, u.node);
    AddedByAge(rest, uses, u);
    if b.size > 0 { EvictedTidy(b, u.node); }
  }

  lemma {:induction false} RemovedByAge(b: Bucket, uses: seq<Use>, u: Use)
    requires Tidy(b) && ByAge(b.nodes, uses) && u.Remove?
    ensures ByAge(Removed(b, u.key).nodes, uses + [u])
  {
    match Position(b.nodes, u.key)
    case Some(p) =>
      SomeByAge(b.nodes, p, uses);
      OlderByOne(DropAt(b.nodes, p), uses, u);
    case None =>
      OlderByOne(b.nodes, uses, u);
  }

  /** The nodes whose key has the bit as given, in their order. */
  function WithBit(nodes: seq<Node>, depth: nat, bit: bool): seq<Node> {
    if nodes == [] then []
    else (if GetBit(nodes[0].id, depth) == bit then [nodes[0]] else []) + WithBit(nodes[1..], depth, bit)
  }

  function First(nodes: seq<Node>, k: nat): seq<Node> {
    nodes[..Min(k, |nodes|)]
  }

  ghost predicate NoCommonKey(a: seq<Node>, b: seq<Node>) {
    forall i, j :: 0 <= i < |a| && 0 <= j < |b| ==> a[i].id != b[j].id
  }

  lemma {:induction false} InsertAllIs(b: Bucket, nodes: seq<Node>, depth: nat, bit: bool)
    requires |b.nodes| <= b.size && DistinctIds(nodes) && NoCommonKey(b.nodes, nodes)
    ensures InsertAll(b, nodes, depth, bit) == b.(nodes := First(b.nodes + WithBit(nodes, depth, bit), b.size))
    decreases |nodes|
  {
    if nodes == [] {
      assert b.nodes + [] == b.nodes;
    } else {
      var rest := nodes[1..];
      assert forall j :: 0 <= j < |rest| ==> rest[j] == nodes[j + 1];
      if GetBit(nodes[0].id, depth) == bit {
        assert !HasKey(b.nodes, nodes[0].id);
        var c := Added(b, nodes[0]);
        InsertAllIs(c, rest, depth, bit);
        var more := WithBit(rest, depth, bit);
        assert b.nodes + ([nodes[0]] + more) == b.nodes + [nodes[0]] + more;
        if |b.nodes| == b.size {
          assert First(b.nodes + more, b.size) == b.nodes == First(b.nodes + ([nodes[0]] + more), b.size);
        }
      } else {
        InsertAllIs(b, rest, depth, bit);
        assert WithBit(nodes, depth, bit) == WithBit(rest, depth, bit);
      }
    }
  }

  /** The halves of a split: the nodes with the bit at the bucket's depth clear, and set, in their order, but of each
      half only the first `depth + 1`. */
  lemma {:induction false} SplitKeepsFirst(b: Bucket, bit: bool)
    requires DistinctIds(b.nodes)
    ensures SplitHalf(b, bit).nodes == First(WithBit(b.nodes, b.depth, bit), b.depth + 1)
    ensures SplitHalf(b, bit).size == b.depth + 1 && SplitHalf(b, bit).depth == b.size
  {
    InsertAllIs(Bucket([], b.depth + 1, b.size), b.nodes, b.depth, bit);
    assert [] + WithBit(b.nodes, b.depth, bit) == WithBit(b.nodes, b.depth, bit);
  }

  lemma {:induction false} WithBitElements(nodes: seq<Node>, depth: nat, bit: bool)
    ensures forall n :: n in WithBit(nodes, depth, bit) <==> n in nodes && GetBit(n.id, depth) == bit
    ensures |WithBit(nodes, depth, true)| + |WithBit(nodes, depth, false)| == |nodes|
  {
    if nodes != [] {
      WithBitElements(nodes[1..], depth, bit);
      assert forall n :: n in nodes <==> n == nodes[0] || n in nodes[1..];
    }
  }

  /** So a split loses nodes exactly when more than `depth + 1` of them agree in that bit. */
  lemma {:induction false} SplitLosesIff(b: Bucket)
    requires DistinctIds(b.nodes)
    ensures |SplitHalf(b, false).nodes| + |SplitHalf(b, true).nodes| == |b.nodes| <==>
            |WithBit(b.nodes, b.depth, false)| <= b.depth + 1 && |WithBit(b.nodes, b.depth, true)| <= b.depth + 1
  {
    SplitKeepsFirst(b, false);
    SplitKeepsFirst(b, true);
    WithBitElements(b.nodes, b.depth, true);
  }
}
