/** The routing table: 256 buckets indexed by the first set bit of the hashed distance from the host. */
module RouteTable {
  import opened Bytes
  import opened Keys
  import opened Xor
  import opened KBucket

  const KBUCKET_MAX: nat := 20
  const BUCKETS: nat := 256

  datatype InsertResult = Nothing | Inserted | Split | Ping(oldest: Node, candidate: Node)

  /** The table as a value. */
  datatype Table = Table(host: Node, buckets: seq<Bucket>)

  /** The first set bit from `i` on, or the last index if there is none. */
  function FirstBit(id: Digest, i: nat): (r: nat)
    requires i <= BUCKETS
    ensures r < BUCKETS
    decreases |id| * 8 - i
  {
    if i == BUCKETS then BUCKETS - 1 else if Bit(id, i) then i else FirstBit(id, i + 1)
  }

  function BucketIndex(sha: Sha, host: Key, key: Key): (r: nat)
    ensures r < BUCKETS
  {
    FirstBit(Distance(sha, host, key).id, 0)
  }

  lemma {:induction false} FirstBitMeans(id: Digest, i: nat)
    requires i <= BUCKETS
    ensures var r := FirstBit(id, i);
            (forall k :: i <= k < r ==> !Bit(id, k)) && (Bit(id, r) || forall k :: i <= k < BUCKETS ==> !Bit(id, k))
    decreases BUCKETS - i
  {
    if i < BUCKETS && !Bit(id, i) { FirstBitMeans(id, i + 1); }
  }

  /** No bit of the distance before the index is set, and the one at the index is, unless the distance is all zeros:
      then the index is the last. */
  lemma {:induction false} BucketIndexMeans(sha: Sha, host: Key, key: Key)
    ensures var d, r := Distance(sha, host, key).id, BucketIndex(sha, host, key);
            && (forall k :: 0 <= k < r ==> !Bit(d, k))
            && (if exists k :: 0 <= k < BUCKETS && Bit(d, k) then Bit(d, r) else r == BUCKETS - 1)
  {
    var d, r := Distance(sha, host, key).id, BucketIndex(sha, host, key);
    FirstBitMeans(d, 0);
    if !Bit(d, r) { NoBit(d, 0); }
  }

  lemma {:induction false} NoBit(id: Digest, i: nat)
    requires i <= BUCKETS && forall k :: i <= k < BUCKETS ==> !Bit(id, k)
    ensures FirstBit(id, i) == BUCKETS - 1
    decreases BUCKETS - i
  {
    if i < BUCKETS { NoBit(id, i + 1); }
  }

  lemma {:induction false} FirstDifference(a: seq<byte>, b: seq<byte>, i: nat)
    requires |a| == |b| && i < |a| && a[i] < b[i] && forall k :: 0 <= k < i ==> a[k] == b[k]
    ensures LexLess(a, b)
  {
    if i > 0 { FirstDifference(a[1..], b[1..], i - 1); }
  }

  lemma {:induction false} LeadingZero(d: Digest, r: nat, i: nat)
    requires r < BUCKETS && i < r / 8 && forall k :: 0 <= k < r ==> !Bit(d, k)
    ensures d[i] == 0
  {
    forall j: nat | j < 8 ensures !BitOf(d[i], j) { BitAt(d, i, j); }
    ZeroByte(d[i]);
  }

  /** A string whose first set bit comes later spells a lower number. */
  lemma {:induction false} LaterBitIsLower(d: Digest, e: Digest, r: nat)
    requires r < BUCKETS && Bit(d, r) && (forall k :: 0 <= k < r ==> !Bit(d, k))
    requires forall k :: 0 <= k <= r ==> !Bit(e, k)
    ensures LexLess(e, d)
  {
    var i, j := r / 8, 7 - r % 8;
    forall k | 0 <= k < i ensures e[k] == d[k] {
      LeadingZero(d, r, k);
      LeadingZero(e, r, k);
    }
    forall k: nat | j <= k < 8 ensures !BitOf(e[i], k) { BitAt(e, i, k); }
    LowerByte(d[i], e[i], j);
    FirstDifference(e, d, i);
  }

  /** The buckets are rings around the host: whatever belongs in a later one is closer. */
  lemma {:induction false} LaterBucketIsCloser(sha: Sha, host: Key, a: Key, b: Key)
    requires BucketIndex(sha, host, a) < BucketIndex(sha, host, b)
    ensures Rank(sha, host, b) < Rank(sha, host, a)
  {
    BucketIndexMeans(sha, host, a);
    BucketIndexMeans(sha, host, b);
    LaterBitIsLower(Distance(sha, host, a).id, Distance(sha, host, b).id, BucketIndex(sha, host, a));
    RankIsOrder(sha, host, b, a);
  }

  lemma {:induction false} BitAt(id: Digest, i: nat, j: nat)
    requires i < 32 && j < 8
    ensures Bit(id, i * 8 + (7 - j)) <==> BitOf(id[i], j)
  {
    var at := i * 8 + (7 - j);
    assert at / 8 == i && at % 8 == 7 - j;
  }

  lemma {:induction false} ScanStep(id: Digest, i: nat, j: nat)
    requires i < 32 && j < 8
    ensures FirstBit(id, i * 8 + (7 - j)) == if BitOf(id[i], j) then i * 8 + (7 - j) else FirstBit(id, i * 8 + (8 - j))
  {
    BitAt(id, i, j);
  }

  /** Before bit `j - 1` of byte `i` is read, `first` is still to be found there or later. */
  ghost predicate ScanIsAt(id: Digest, i: nat, j: nat, first: nat)
    requires i < 32 && j <= 8
  {
    first == FirstBit(id, i * 8 + (8 - j))
  }

  function Halved(t: Table, index: nat): Table
    requires index < |t.buckets|
  {
    var b := t.buckets[index];
    t.(buckets := t.buckets[..index] + [SplitHalf(b, false), SplitHalf(b, true)] + t.buckets[index + 1..])
  }

  function TryInserted(sha: Sha, t: Table, node: Node): (Table, InsertResult) {
    var index := BucketIndex(sha, t.host.id, node.id);
    if index >= |t.buckets| || node.id == t.host.id then (t, Nothing)
    else
      var b := t.buckets[index];
      if |b.nodes| != b.size then (t.(buckets := t.buckets[index := Added(b, node)]), Inserted)
      else if Position(b.nodes, t.host.id).Some? then
        (Halved(t, index), Split)
      else if b.nodes == [] then (t, Nothing)
      else (t, Ping(b.nodes[0], node))
  }

  function Replaced(sha: Sha, t: Table, node: Node): Table {
    var index := BucketIndex(sha, t.host.id, node.id);
    if index >= |t.buckets| then t else t.(buckets := t.buckets[index := Evicted(t.buckets[index], node)])
  }

  function RemovedFrom(sha: Sha, t: Table, node: Node): Table {
    var index := BucketIndex(sha, t.host.id, node.id);
    if index >= |t.buckets| then t else t.(buckets := t.buckets[index := Removed(t.buckets[index], node.id)])
  }

  function NodesFrom(buckets: seq<Bucket>): seq<Node> {
    if buckets == [] then [] else buckets[0].nodes + NodesFrom(buckets[1..])
  }

  class RouteTable {
    const sha: Sha
    const host: Node
    var kbuckets: seq<KBucket>
    ghost var model: Table

    /** The buckets are separate objects and together hold what the model says. */
    ghost predicate Valid()
      reads this, kbuckets
    {
      && model.host == host && |kbuckets| == |model.buckets|
      && (forall i :: 0 <= i < |kbuckets| ==> kbuckets[i].View() == model.buckets[i])
      && (forall i, j :: 0 <= i < j < |kbuckets| ==> kbuckets[i] != kbuckets[j])
    }

    constructor (sha: Sha, host: Node)
      ensures Valid() && fresh(set b | b in kbuckets) && this.sha == sha && this.host == host
      ensures model == EmptyTable(host)
    {
      this.sha, this.host, model := sha, host, EmptyTable(host);
      kbuckets := [];
      new;
      for depth := 0 to BUCKETS
        invariant model == EmptyTable(host) && |kbuckets| == depth
        invariant forall i :: 0 <= i < depth ==> fresh(kbuckets[i]) && kbuckets[i].View() == Bucket([], KBUCKET_MAX, i)
        invariant forall i, j :: 0 <= i < j < depth ==> kbuckets[i] != kbuckets[j]
      {
        var b := new KBucket(KBUCKET_MAX, depth);
        kbuckets := kbuckets + [b];
      }
    }

    /** `RouteTable::get_bucket_index`: a scan over bytes, and in each over bits from the most significant down. */
    method GetBucketIndex(key: Key) returns (index: nat)
      ensures index == BucketIndex(sha, host.id, key)
    {
      var between := KeyDistance(sha, host.id, key);
      var distance := between.id;
      for i := 0 to 32
        invariant FirstBit(distance, 0) == FirstBit(distance, i * 8)
      {
        var bit := ScanByte(distance, i);
        if bit.Some? {
          return i * 8 + bit.value;
        }
      }
      return 32 * 8 - 1;
    }

    static method ScanByte(distance: Digest, i: nat) returns (bit: Option<nat>)
      requires i < 32
      ensures bit.Some? ==> bit.value < 8 && FirstBit(distance, i * 8) == i * 8 + bit.value
      ensures bit.None? ==> FirstBit(distance, i * 8) == FirstBit(distance, i * 8 + 8)
    {
      ghost var first := FirstBit(distance, i * 8);
      var j := 8;
      while j > 0
        invariant 0 <= j <= 8
        invariant ScanIsAt(distance, i, j, first)
      {
        j := j - 1;
        var isSet := ScanBit(distance, i, j, first);
        if isSet {
          return Some(7 - j);
        }
      }
      return None;
    }

    /** One bit of it. */
    static method ScanBit(distance: Digest, i: nat, j: nat, ghost first: nat) returns (isSet: bool)
      requires i < 32 && j < 8 && ScanIsAt(distance, i, j + 1, first)
      ensures isSet ==> first == i * 8 + (7 - j)
      ensures !isSet ==> ScanIsAt(distance, i, j, first)
    {
      ScanStep(distance, i, j);
      isSet := ReadBit(distance[i], j);
    }

    /** `RouteTable::try_insert`. */
    method TryInsert(node: Node) returns (r: InsertResult)
      requires Valid()
      modifies this, kbuckets
      ensures Valid()
      ensures (model, r) == TryInserted(sha, old(model), node)
      ensures r != Split ==> kbuckets == old(kbuckets)
      ensures forall b :: b in kbuckets ==> b in old(kbuckets) || fresh(b)
    {
      var index := GetBucketIndex(node.id);
      if index >= |kbuckets| || node.id == host.id {
        return Nothing;
      }
      var kbucket := kbuckets[index];
      if |kbucket.nodes| != kbucket.bucketSize {
        kbucket.Insert(node);
        model := model.(buckets := model.buckets[index := kbucket.View()]);
        return Inserted;
      }
      if Position(kbucket.nodes, host.id).Some? {
        SplitAt(index);
        return Split;
      }
      if kbucket.nodes == [] {
        return Nothing;
      }
      return Ping(kbucket.nodes[0], node);
    }

    method SplitAt(index: nat)
      requires Valid() && index < |kbuckets|
      modifies this, kbuckets
      ensures Valid() && model == Halved(old(model), index)
      ensures forall b :: b in kbuckets ==> b in old(kbuckets) || fresh(b)
    {
      var left, right := kbuckets[index].Split();
      kbuckets := kbuckets[..index] + [left, right] + kbuckets[index + 1..];
      model := Halved(model, index);
    }

    /** `RouteTable::replace`. */
    method Replace(node: Node)
      requires Valid()
      modifies this`model, kbuckets
      ensures Valid() && model == Replaced(sha, old(model), node)
    {
      var index := GetBucketIndex(node.id);
      if index < |kbuckets| {
        kbuckets[index].EvictAndInsert(node);
        model := Replaced(sha, model, node);
      }
    }

    /** `RouteTable::remove`. */
    method Remove(node: Node)
      requires Valid()
      modifies this`model, kbuckets
      ensures Valid() && model == RemovedFrom(sha, old(model), node)
    {
      var index := GetBucketIndex(node.id);
      if index < |kbuckets| {
        kbuckets[index].Remove(node.id);
        model := RemovedFrom(sha, model, node);
      }
    }
  }

  function EmptyTable(host: Node): Table {
    Table(host, seq(BUCKETS, i requires 0 <= i < BUCKETS => Bucket([], KBUCKET_MAX, i)))
  }

  /** What every interleaving of table operations keeps. */
  ghost predicate Inv(sha: Sha, t: Table) {
    && |t.buckets| == BUCKETS
    && forall i :: 0 <= i < BUCKETS ==> BucketOk(sha, t.host.id, t.buckets[i], i)
  }

  ghost predicate BucketOk(sha: Sha, host: Key, b: Bucket, index: nat) {
    && b.size == KBUCKET_MAX && Tidy(b)
    && forall n :: n in b.nodes ==> n.id != host && BucketIndex(sha, host, n.id) == index
  }

  datatype Op = TryOp(node: Node) | ReplaceOp(node: Node) | RemoveOp(node: Node)

  /** The table and the nodes `try_insert` has handed back for a ping so far. */
  datatype Sys = Sys(table: Table, offered: set<Node>)

  function Apply(sha: Sha, s: Sys, op: Op): Sys {
    match op
    case TryOp(n) =>
      var (t, r) := TryInserted(sha, s.table, n);
      Sys(t, if r.Ping? then s.offered + {r.candidate} else s.offered)
    case ReplaceOp(n) => s.(table := Replaced(sha, s.table, n))
    case RemoveOp(n) => s.(table := RemovedFrom(sha, s.table, n))
  }

  /** Tasks interleave freely, but a replace is only ever called with a node that came back in a Ping. */
  ghost predicate Legal(sha: Sha, s: Sys, ops: seq<Op>)
    decreases |ops|
  {
    ops == [] ||
    ((ops[0].ReplaceOp? ==> ops[0].node in s.offered) && Legal(sha, Apply(sha, s, ops[0]), ops[1..]))
  }

  function Run(sha: Sha, s: Sys, ops: seq<Op>): Sys
    decreases |ops|
  {
    if ops == [] then s else Run(sha, Apply(sha, s, ops[0]), ops[1..])
  }

  ghost predicate SysInv(sha: Sha, s: Sys) {
    Inv(sha, s.table) && forall n :: n in s.offered ==> n.id != s.table.host.id
  }

  /** Only one bucket differs. */
  ghost predicate SameOutside(t: Table, u: Table, index: nat) {
    && u.host == t.host && |u.buckets| == |t.buckets|
    && forall i :: 0 <= i < |t.buckets| && i != index ==> u.buckets[i] == t.buckets[i]
  }

  /** What an insertion answers, on every table: nothing for the host or without a bucket; inserted, with only that
      bucket changed, if it is not full; a split if it is full and holds the host; else a ping of its oldest node. */
  lemma {:induction false} TryAnswers(sha: Sha, t: Table, node: Node)
    ensures var (u, r) := TryInserted(sha, t, node);
            var index := BucketIndex(sha, t.host.id, node.id);
            if index >= |t.buckets| || node.id == t.host.id then u == t && r == Nothing
            else
              var b := t.buckets[index];
              if |b.nodes| != b.size then
                r == Inserted && SameOutside(t, u, index) && u.buckets[index] == Added(b, node)
              else if HasKey(b.nodes, t.host.id) then r == Split && u == Halved(t, index)
              else u == t && r == (if b.nodes == [] then Nothing else Ping(b.nodes[0], node))
  {
  }

  /** A split puts the two halves in the place of the bucket and moves the later ones up. */
  lemma {:induction false} HalvedMeans(t: Table, index: nat)
    requires index < |t.buckets|
    ensures var u := Halved(t, index);
            && u.host == t.host && |u.buckets| == |t.buckets| + 1
            && u.buckets[index] == SplitHalf(t.buckets[index], false)
            && u.buckets[index + 1] == SplitHalf(t.buckets[index], true)
            && (forall i :: 0 <= i < index ==> u.buckets[i] == t.buckets[i])
            && (forall i :: index < i < |t.buckets| ==> u.buckets[i + 1] == t.buckets[i])
  {
  }

  /** A replacement on a table in order: in the node's own bucket the first node goes and the node comes last; the
      others keep their order, and no other bucket changes. */
  lemma {:induction false} ReplaceChanges(sha: Sha, t: Table, node: Node)
    requires Inv(sha, t)
    ensures var index := BucketIndex(sha, t.host.id, node.id);
            var b, u := t.buckets[index], Replaced(sha, t, node);
            && SameOutside(t, u, index)
            && u.buckets[index].nodes == Without(if b.nodes == [] then [] else b.nodes[1..], node.id) + [node]
  {
    var index := BucketIndex(sha, t.host.id, node.id);
    var b := t.buckets[index];
    assert BucketOk(sha, t.host.id, b, index);
    var c := EvictedIs(b, node);
    assert Replaced(sha, t, node).buckets == t.buckets[index := c];
  }

  lemma {:induction false} EvictedIs(b: Bucket, node: Node) returns (c: Bucket)
    requires Tidy(b) && b.size > 0
    ensures c == Evicted(b, node)
    ensures c.nodes == Without(if b.nodes == [] then [] else b.nodes[1..], node.id) + [node]
  {
    c := Evicted(b, node);
    SeenGoesLast(b, node);
  }

  /** A removal: in the node's own bucket exactly the node goes. */
  lemma {:induction false} RemoveChanges(sha: Sha, t: Table, node: Node)
    requires Inv(sha, t)
    ensures var index := BucketIndex(sha, t.host.id, node.id);
            var u := RemovedFrom(sha, t, node);
            SameOutside(t, u, index) && u.buckets[index].nodes == Without(t.buckets[index].nodes, node.id)
  {
    var index := BucketIndex(sha, t.host.id, node.id);
    assert BucketOk(sha, t.host.id, t.buckets[index], index);
    SeenGoesLast(t.buckets[index], node);
  }

  lemma {:induction false} RunSnoc(sha: Sha, s: Sys, ops: seq<Op>)
    requires ops != []
    ensures Run(sha, s, ops) == Apply(sha, Run(sha, s, Front(ops)), Last(ops))
    decreases |ops|
  {
    if |ops| > 1 {
      RunSnoc(sha, Apply(sha, s, ops[0]), ops[1..]);
      assert Front(ops[1..]) == Front(ops)[1..];
    }
  }

  /** Step `k` of the run is an insertion of the node that is answered with a ping. */
  ghost predicate PingedAt(sha: Sha, s: Sys, ops: seq<Op>, k: nat, n: Node) {
    k < |ops| && ops[k] == TryOp(n) && TryInserted(sha, Run(sha, s, ops[..k]).table, n).1.Ping?
  }

  /** One step more: a step of the run so far is a step of the longer run, and the last one is its own. */
  lemma {:induction false} PingedMore(sha: Sha, s: Sys, ops: seq<Op>, n: Node)
    requires ops != []
    ensures (exists k: nat :: PingedAt(sha, s, ops, k, n)) <==>
            (exists k: nat :: PingedAt(sha, s, Front(ops), k, n)) || PingedAt(sha, s, ops, |ops| - 1, n)
  {
    var before := Front(ops);
    forall k: nat | k < |before| ensures PingedAt(sha, s, before, k, n) <==> PingedAt(sha, s, ops, k, n) {
      assert before[..k] == ops[..k];
    }
    if k: nat :| PingedAt(sha, s, before, k, n) { assert PingedAt(sha, s, ops, k, n); }
    if k: nat :| PingedAt(sha, s, ops, k, n) && k < |before| { assert PingedAt(sha, s, before, k, n); }
  }

  /** The nodes a run may replace by are exactly those that came back in a ping. */
  lemma {:induction false} OfferedIff(sha: Sha, s: Sys, ops: seq<Op>, n: Node)
    requires s.offered == {}
    ensures n in Run(sha, s, ops).offered <==> exists k: nat :: PingedAt(sha, s, ops, k, n)
    decreases |ops|
  {
    if ops != [] {
      RunSnoc(sha, s, ops);
      OfferedIff(sha, s, Front(ops), n);
      PingedMore(sha, s, ops, n);
      OfferedNow(sha, Run(sha, s, Front(ops)), Last(ops), n);
      assert ops[..|ops| - 1] == Front(ops);
    }
  }

  lemma {:induction false} OfferedNow(sha: Sha, s: Sys, op: Op, n: Node)
    ensures n in Apply(sha, s, op).offered <==>
            n in s.offered || (op == TryOp(n) && TryInserted(sha, s.table, n).1.Ping?)
  {
  }

  /** The host is in no bucket, so the split branch is never taken. */
  lemma {:induction false} NeverSplits(sha: Sha, t: Table, node: Node)
    requires Inv(sha, t)
    ensures TryInserted(sha, t, node).1 != Split
    ensures TryInserted(sha, t, node).1 != Nothing <==> node.id != t.host.id
  {
    var index := BucketIndex(sha, t.host.id, node.id);
    var b := t.buckets[index];
    assert BucketOk(sha, t.host.id, b, index);
    assert !HasKey(b.nodes, t.host.id) by {
      assert forall i :: 0 <= i < |b.nodes| ==> b.nodes[i] in b.nodes;
    }
  }

  lemma {:induction false} TryKeeps(sha: Sha, t: Table, node: Node)
    requires Inv(sha, t)
    ensures Inv(sha, TryInserted(sha, t, node).0)
  {
    var index := BucketIndex(sha, t.host.id, node.id);
    NeverSplits(sha, t, node);
    assert BucketOk(sha, t.host.id, t.buckets[index], index);
    AddedTidy(t.buckets[index], node);
  }

  lemma {:induction false} ReplaceKeeps(sha: Sha, t: Table, node: Node)
    requires Inv(sha, t) && node.id != t.host.id
    ensures Inv(sha, Replaced(sha, t, node))
  {
    var index := BucketIndex(sha, t.host.id, node.id);
    assert BucketOk(sha, t.host.id, t.buckets[index], index);
    EvictedTidy(t.buckets[index], node);
  }

  lemma {:induction false} RemoveKeeps(sha: Sha, t: Table, node: Node)
    requires Inv(sha, t)
    ensures Inv(sha, RemovedFrom(sha, t, node))
  {
    var index := BucketIndex(sha, t.host.id, node.id);
    assert BucketOk(sha, t.host.id, t.buckets[index], index);
    RemovedTidy(t.buckets[index], node.id);
  }

  /** Every legal interleaving keeps the table in order. */
  lemma {:induction false} RunKeeps(sha: Sha, s: Sys, ops: seq<Op>)
    requires SysInv(sha, s) && Legal(sha, s, ops)
    ensures SysInv(sha, Run(sha, s, ops))
    decreases |ops|
  {
    if ops != [] {
      match ops[0] {
        case TryOp(n) => TryKeeps(sha, s.table, n); NeverSplits(sha, s.table, n);
        case ReplaceOp(n) => ReplaceKeeps(sha, s.table, n);
        case RemoveOp(n) => RemoveKeeps(sha, s.table, n);
      }
      RunKeeps(sha, Apply(sha, s, ops[0]), ops[1..]);
    }
  }

  lemma {:induction false} EmptyTableOk(sha: Sha, host: Node)
    ensures Inv(sha, EmptyTable(host))
  {
  }

  /** From an empty table on: no reachable table answers an insertion with a split. */
  lemma {:induction false} SplitIsUnreachable(sha: Sha, host: Node, ops: seq<Op>, node: Node)
    requires Legal(sha, Sys(EmptyTable(host), {}), ops)
    ensures var t := Run(sha, Sys(EmptyTable(host), {}), ops).table;
            Inv(sha, t) && TryInserted(sha, t, node).1 != Split
  {
    EmptyTableOk(sha, host);
    RunKeeps(sha, Sys(EmptyTable(host), {}), ops);
    NeverSplits(sha, Run(sha, Sys(EmptyTable(host), {}), ops).table, node);
  }

  /** No key twice in the whole table: equal keys index the same bucket, and a bucket holds a key once. */
  lemma {:induction false} NoKeyTwice(sha: Sha, t: Table, i: nat, p: nat, j: nat, q: nat)
    requires Inv(sha, t) && i < BUCKETS && j < BUCKETS && p < |t.buckets[i].nodes| && q < |t.buckets[j].nodes|
    requires t.buckets[i].nodes[p].id == t.buckets[j].nodes[q].id
    ensures i == j && p == q
  {
    assert BucketOk(sha, t.host.id, t.buckets[i], i) && BucketOk(sha, t.host.id, t.buckets[j], j);
    assert t.buckets[i].nodes[p] in t.buckets[i].nodes && t.buckets[j].nodes[q] in t.buckets[j].nodes;
  }

  /** It is keys that are unique, not 32-byte ids: two keys with one id and different public keys both get in. */
  lemma {:induction false} OneIdTwice(sha: Sha, host: Node, a: Node, b: Node)
    requires a.id.id == b.id.id && a.id.pubKey != b.id.pubKey && host.id != a.id && host.id != b.id
    ensures var t := Run(sha, Sys(EmptyTable(host), {}), [TryOp(a), TryOp(b)]).table;
            var index := BucketIndex(sha, host.id, a.id);
            index < |t.buckets| && t.buckets[index].nodes == [a, b]
  {
    var index := BucketIndex(sha, host.id, a.id);
    var s0 := Sys(EmptyTable(host), {});
    var s1 := Apply(sha, s0, TryOp(a));
    assert s0.table.buckets[index] == Bucket([], KBUCKET_MAX, index);
    assert s1.table.buckets[index].nodes == [a];
    assert [TryOp(a), TryOp(b)][1..] == [TryOp(b)] && [TryOp(b)][1..] == [];
    assert Run(sha, s1, [TryOp(b)]) == Apply(sha, s1, TryOp(b));
  }

  /** No 32-byte id twice in the whole table. */
  ghost predicate IdsUnique(t: Table) {
    forall i: nat, p: nat, j: nat, q: nat ::
      SameId(t, i, p, j, q) ==> i == j && p == q
  }

  predicate SameId(t: Table, i: nat, p: nat, j: nat, q: nat) {
    && i < |t.buckets| && j < |t.buckets| && p < |t.buckets[i].nodes| && q < |t.buckets[j].nodes|
    && t.buckets[i].nodes[p].id.id == t.buckets[j].nodes[q].id.id
  }

  ghost predicate NodesOf(keys: set<Key>, nodes: seq<Node>) {
    forall n :: n in nodes ==> n.id in keys
  }

  ghost predicate SysOf(keys: set<Key>, s: Sys) {
    && (forall i :: 0 <= i < |s.table.buckets| ==> NodesOf(keys, s.table.buckets[i].nodes))
    && forall n :: n in s.offered ==> n.id in keys
  }

  ghost predicate OpsOf(keys: set<Key>, ops: seq<Op>) {
    forall k :: 0 <= k < |ops| ==> ops[k].node.id in keys
  }

  /** One bucket exchanged for another over the same keys. */
  lemma {:induction false} ExchangedOf(keys: set<Key>, s: Sys, index: nat, b: Bucket)
    requires SysOf(keys, s) && index < |s.table.buckets| && NodesOf(keys, b.nodes)
    ensures SysOf(keys, s.(table := s.table.(buckets := s.table.buckets[index := b])))
  {
  }

  /** Only keys that are offered get in. */
  lemma {:induction false} StepOf(sha: Sha, keys: set<Key>, s: Sys, op: Op)
    requires SysInv(sha, s) && SysOf(keys, s) && op.node.id in keys
    ensures SysOf(keys, Apply(sha, s, op)) && Apply(sha, s, op).table.host == s.table.host
  {
    var index := BucketIndex(sha, s.table.host.id, op.node.id);
    var b := s.table.buckets[index];
    assert BucketOk(sha, s.table.host.id, b, index);
    match op
    case TryOp(n) =>
      NeverSplits(sha, s.table, n);
      AddedTidy(b, n);
      ExchangedOf(keys, s, index, Added(b, n));
    case ReplaceOp(n) =>
      EvictedTidy(b, n);
      ExchangedOf(keys, s, index, Evicted(b, n));
    case RemoveOp(n) =>
      RemovedTidy(b, n.id);
      ExchangedOf(keys, s, index, Removed(b, n.id));
  }

  lemma {:induction false} RunOf(sha: Sha, keys: set<Key>, s: Sys, ops: seq<Op>)
    requires SysInv(sha, s) && SysOf(keys, s) && Legal(sha, s, ops) && OpsOf(keys, ops)
    ensures SysOf(keys, Run(sha, s, ops)) && Run(sha, s, ops).table.host == s.table.host
    decreases |ops|
  {
    if ops != [] {
      StepOf(sha, keys, s, ops[0]);
      assert Legal(sha, s, [ops[0]]) by { assert [ops[0]][1..] == []; }
      RunKeeps(sha, s, [ops[0]]);
      assert Run(sha, s, [ops[0]]) == Apply(sha, s, ops[0]) by { assert [ops[0]][1..] == []; }
      RunOf(sha, keys, Apply(sha, s, ops[0]), ops[1..]);
    }
  }

  ghost predicate SharedId(keys: set<Key>) {
    exists a, b :: a in keys && b in keys && a != b && a.id == b.id
  }

  /** The exact condition for unique ids: every run over a set of keys keeps them unique if and only if no two of these
      keys, the host's aside, share an id under different public keys. */
  lemma {:induction false} IdsUniqueIff(sha: Sha, host: Node, keys: set<Key>)
    ensures (forall ops :: OpsOf(keys, ops) && Legal(sha, Sys(EmptyTable(host), {}), ops) ==>
               IdsUnique(Run(sha, Sys(EmptyTable(host), {}), ops).table)) <==> !SharedId(keys - {host.id})
  {
    var s := Sys(EmptyTable(host), {});
    EmptyTableOk(sha, host);
    if SharedId(keys - {host.id}) {
      var a, b :| a in keys - {host.id} && b in keys - {host.id} && a != b && a.id == b.id;
      var ops := SharedGetIn(sha, host, keys, a, b);
    } else {
      forall ops | OpsOf(keys, ops) && Legal(sha, s, ops) ensures IdsUnique(Run(sha, s, ops).table) {
        RunKeeps(sha, s, ops);
        RunOf(sha, keys, s, ops);
        UniqueUnlessShared(sha, keys, Run(sha, s, ops));
      }
    }
  }

  lemma {:induction false} SharedGetIn(sha: Sha, host: Node, keys: set<Key>, a: Key, b: Key) returns (ops: seq<Op>)
    requires a in keys && b in keys && a != host.id && b != host.id && a != b && a.id == b.id
    ensures var s := Sys(EmptyTable(host), {});
            OpsOf(keys, ops) && Legal(sha, s, ops) && !IdsUnique(Run(sha, s, ops).table)
  {
    var m, n := host.(id := a), host.(id := b);
    ops := [TryOp(m), TryOp(n)];
    OneIdTwice(sha, host, m, n);
    assert ops[1..] == [TryOp(n)] && ops[1..][1..] == [];
    var index := BucketIndex(sha, host.id, a);
    assert SameId(Run(sha, Sys(EmptyTable(host), {}), ops).table, index, 0, index, 1);
  }

  lemma {:induction false} UniqueUnlessShared(sha: Sha, keys: set<Key>, s: Sys)
    requires SysInv(sha, s) && SysOf(keys, s) && !SharedId(keys - {s.table.host.id})
    ensures IdsUnique(s.table)
  {
    var t := s.table;
    forall i: nat, p: nat, j: nat, q: nat | SameId(t, i, p, j, q) ensures i == j && p == q {
      var m, n := t.buckets[i].nodes[p], t.buckets[j].nodes[q];
      assert BucketOk(sha, t.host.id, t.buckets[i], i) && BucketOk(sha, t.host.id, t.buckets[j], j);
      assert m in t.buckets[i].nodes && n in t.buckets[j].nodes;
      assert m.id in keys - {t.host.id} && n.id in keys - {t.host.id};
      assert m.id == n.id;
      NoKeyTwice(sha, t, i, p, j, q);
    }
  }
}
