/** Ping or replace: what happens to the routing table when a node has shown itself alive. */
module Acknowledge {
  import opened Bytes
  import opened Keys
  import opened KBucket
  import opened RouteTable

  /** The bucket after a node is acknowledged, and the nodes that were pinged, when the two pings that can be needed
      succeed or fail as given. A full bucket is still full after the first replacement, so a second node is pinged
      although the new one is already in. */
  function Acknowledged(b: Bucket, node: Node, first: bool, second: bool): (Bucket, seq<Node>)
    requires b.size > 0
  {
    if |b.nodes| != b.size then (Added(b, node), [])
    else if first then (b, [b.nodes[0]])
    else
      var c := Evicted(b, node);
      if |c.nodes| != c.size then (Added(c, node), [b.nodes[0]])
      else if second then (c, [b.nodes[0], c.nodes[0]])
      else (Added(Evicted(c, node), node), [b.nodes[0], c.nodes[0]])
  }

  /** The table with one bucket exchanged. */
  function With(t: Table, index: nat, b: Bucket): Table
    requires index < |t.buckets|
  {
    t.(buckets := t.buckets[index := b])
  }

  /** One `try_insert`, told by its effect on the node's own bucket `x`. */
  method TryOnce(table: RouteTable, node: Node, ghost start: Table, ghost index: nat, ghost x: Bucket)
    returns (r: InsertResult)
    requires table.Valid() && Inv(table.sha, table.model) && index == BucketIndex(table.sha, table.host.id, node.id)
    requires |start.buckets| == BUCKETS && table.model == With(start, index, x)
    modifies table, table.kbuckets
    ensures table.Valid() && Inv(table.sha, table.model) && table.kbuckets == old(table.kbuckets)
    ensures node.id == table.host.id ==> r == Nothing && table.model == old(table.model)
    ensures node.id != table.host.id && |x.nodes| != x.size ==>
              r == Inserted && table.model == With(start, index, Added(x, node))
    ensures node.id != table.host.id && |x.nodes| == x.size ==>
              |x.nodes| > 0 && r == Ping(x.nodes[0], node) && table.model == old(table.model)
  {
    NeverSplits(table.sha, table.model, node);
    TryKeeps(table.sha, table.model, node);
    assert BucketOk(table.sha, table.host.id, x, index);
    r := table.TryInsert(node);
  }

  method ReplaceOnce(table: RouteTable, node: Node, ghost start: Table, ghost index: nat, ghost x: Bucket)
    requires table.Valid() && Inv(table.sha, table.model) && index == BucketIndex(table.sha, table.host.id, node.id)
    requires |start.buckets| == BUCKETS && table.model == With(start, index, x) && node.id != table.host.id
    modifies table, table.kbuckets
    ensures table.Valid() && Inv(table.sha, table.model) && table.kbuckets == old(table.kbuckets)
    ensures table.model == With(start, index, Evicted(x, node))
  {
    ReplaceKeeps(table.sha, table.model, node);
    table.Replace(node);
  }

  /** How far the loop has come after failed pings of `pings`: the bucket it is at. */
  ghost predicate Round(b: Bucket, node: Node, ping: nat -> bool, pings: seq<Node>, x: Bucket)
    requires b.size > 1
  {
    || (pings == [] && x == b)
    || (|b.nodes| == b.size && pings == [b.nodes[0]] && !ping(0) && x == Evicted(b, node))
    || var c := Evicted(b, node);
       && |b.nodes| == b.size && |c.nodes| == b.size && pings == [b.nodes[0], c.nodes[0]]
       && !ping(0) && !ping(1) && x == Evicted(c, node)
  }

  /** A bucket that was full and stayed full after one replacement is one short after the next. */
  lemma {:induction false} SecondEviction(b: Bucket, node: Node)
    requires Tidy(b) && b.size > 1
    ensures var c := Evicted(b, node);
            |b.nodes| == b.size && |c.nodes| == c.size ==> |Evicted(c, node).nodes| == c.size - 1
  {
    EvictedTidy(b, node);
  }

  lemma {:induction false} NextRound(b: Bucket, node: Node, ping: nat -> bool, pings: seq<Node>, x: Bucket)
    requires Tidy(b) && b.size > 1 && Round(b, node, ping, pings, x) && x.size == b.size
    ensures |pings| <= 2
    ensures |x.nodes| != x.size ==>
              Acknowledged(b, node, ping(0), ping(1)) == (Added(x, node), pings)
    ensures |x.nodes| == x.size ==>
              && |pings| < 2
              && (ping(|pings|) ==> Acknowledged(b, node, ping(0), ping(1)) == (x, pings + [x.nodes[0]]))
              && (!ping(|pings|) ==> Round(b, node, ping, pings + [x.nodes[0]], Evicted(x, node)))
  {
    EvictedTidy(b, node);
    SecondEviction(b, node);
    if |x.nodes| == x.size {
      assert pings == [] ==> pings + [x.nodes[0]] == [x.nodes[0]];
      assert pings != [] ==> pings + [x.nodes[0]] == [pings[0], x.nodes[0]];
    }
  }

  /** `Kademlia::acknowledge`, with no other task touching the table meanwhile and any outcome of its pings. */
  method Acknowledge(table: RouteTable, node: Node, ping: nat -> bool) returns (pings: seq<Node>)
    requires table.Valid() && Inv(table.sha, table.model)
    modifies table, table.kbuckets
    ensures table.Valid() && Inv(table.sha, table.model) && table.kbuckets == old(table.kbuckets)
    ensures node.id == table.host.id ==> table.model == old(table.model) && pings == []
    ensures node.id != table.host.id ==>
              var index := BucketIndex(table.sha, table.host.id, node.id);
              var (b, asked) := Acknowledged(old(table.model).buckets[index], node, ping(0), ping(1));
              table.model == With(old(table.model), index, b) && pings == asked
  {
    pings := [];
    ghost var index := BucketIndex(table.sha, table.host.id, node.id);
    ghost var start := table.model;
    ghost var b := start.buckets[index];
    assert BucketOk(table.sha, table.host.id, b, index);
    ghost var x := b;
    while true
      invariant table.Valid() && Inv(table.sha, table.model) && table.kbuckets == old(table.kbuckets)
      invariant table.model == With(start, index, x) && x.size == b.size && |pings| <= 2
      invariant Round(b, node, ping, pings, x)
      invariant node.id == table.host.id ==> pings == []
      decreases 3 - |pings|
    {
      NextRound(b, node, ping, pings, x);
      var r := TryOnce(table, node, start, index, x);
      match r
      case Nothing => break;
      case Inserted => break;
      case Split =>
      case Ping(old_, new_) =>
        var alive := ping(|pings|);
        pings := pings + [old_];
        if alive { break; }
        ReplaceOnce(table, new_, start, index, x);
        x := Evicted(x, node);
    }
  }

  /** From `b` to `c` nothing but the node came in, and of the others exactly members of `lost` went. */
  ghost predicate Became(b: Bucket, c: Bucket, node: Node, lost: set<Node>) {
    && Tidy(c) && c.size == b.size
    && (forall n :: n in c.nodes ==> n == node || n in b.nodes)
    && (forall n :: n in b.nodes && n.id != node.id ==> (n in c.nodes <==> n !in lost))
  }

  ghost predicate AtEnd(b: Bucket, node: Node) {
    b.nodes != [] && b.nodes[|b.nodes| - 1] == node
  }

  lemma {:induction false} BecameAgain(b: Bucket, c: Bucket, d: Bucket, node: Node, lost: set<Node>, more: set<Node>)
    requires Became(b, c, node, lost) && Became(c, d, node, more)
    ensures Became(b, d, node, lost + more)
  {
  }

  lemma {:induction false} EvictedBecame(b: Bucket, node: Node)
    requires Tidy(b) && b.size > 0
    ensures Became(b, Evicted(b, node), node, if b.nodes == [] then {} else {b.nodes[0]})
    ensures AtEnd(Evicted(b, node), node)
  {
    EvictedTidy(b, node);
    if b.nodes != [] {
      var rest := b.(nodes := b.nodes[1..]);
      AddedTidy(rest, node);
      assert forall n :: n in b.nodes ==> n == b.nodes[0] || n in rest.nodes;
    }
  }

  /** Adding the node that is last already changes nothing. */
  lemma {:induction false} AddedAgain(b: Bucket, node: Node)
    requires Tidy(b) && AtEnd(b, node)
    ensures Added(b, node) == b && HasKey(b.nodes, node.id)
  {
  }

  /** A full bucket stays full after a replacement unless the node was in it further back. */
  lemma {:induction false} StillFull(b: Bucket, node: Node)
    requires Tidy(b) && b.size > 0 && |b.nodes| == b.size
    ensures |Evicted(b, node).nodes| == b.size <==> !HasKey(b.nodes, node.id) || b.nodes[0].id == node.id
  {
    var rest := b.nodes[1..];
    assert forall i :: 0 <= i < |rest| ==> rest[i] == b.nodes[i + 1];
    assert HasKey(rest, node.id) <==> HasKey(b.nodes, node.id) && b.nodes[0].id != node.id;
  }

  /** The oldest node fails its ping and goes. */
  predicate FirstGoes(b: Bucket, first: bool) {
    |b.nodes| == b.size && !first
  }

  /** Then the next one is pinged if the bucket is full again: the node was absent from it, or was the oldest. */
  ghost predicate SecondPinged(b: Bucket, node: Node, first: bool)
    requires b.size > 0
  {
    FirstGoes(b, first) && (!HasKey(b.nodes, node.id) || b.nodes[0].id == node.id)
  }

  /** No ping unless the bucket is full, and at most two, of the two oldest nodes: the second exactly when the first
      failed and the bucket is full again. */
  ghost predicate PingsOk(b: Bucket, node: Node, first: bool, pings: seq<Node>)
    requires b.size > 0
  {
    && |pings| == (if SecondPinged(b, node, first) then 2 else if |b.nodes| == b.size then 1 else 0) <= |b.nodes|
    && pings == b.nodes[..|pings|]
  }

  /** The node is in its bucket at the end unless it was absent from a full bucket whose oldest node answered; it comes
      last, with its new address, unless that oldest node answered. Of the others exactly those that failed their ping
      have left; nothing but the node came in. */
  ghost predicate MembersOk(b: Bucket, node: Node, first: bool, second: bool, c: Bucket)
    requires b.size > 1
  {
    && (HasKey(c.nodes, node.id) <==> HasKey(b.nodes, node.id) || |b.nodes| < b.size || !first)
    && (if |b.nodes| == b.size && first then c == b else AtEnd(c, node))
    && Became(b, c, node, (if FirstGoes(b, first) then {b.nodes[0]} else {}) +
                          (if SecondPinged(b, node, first) && !second then {b.nodes[1]} else {}))
  }

  lemma {:induction false} AcknowledgeOutcome(b: Bucket, node: Node, first: bool, second: bool)
    requires Tidy(b) && b.size > 1
    ensures var (c, pings) := Acknowledged(b, node, first, second);
            PingsOk(b, node, first, pings) && MembersOk(b, node, first, second, c)
  {
    if FirstGoes(b, first) {
      FirstPingFails(b, node, second);
    } else if |b.nodes| < b.size {
      EndHasKey(b, node);
    }
  }

  lemma {:induction false} FirstPingFails(b: Bucket, node: Node, second: bool)
    requires Tidy(b) && b.size > 1 && |b.nodes| == b.size
    ensures var (c, pings) := Acknowledged(b, node, false, second);
            PingsOk(b, node, false, pings) && MembersOk(b, node, false, second, c)
  {
    var c := FirstReplaced(b, node);
    if |c.nodes| != c.size || second {
      FirstGone(b, node, second, c);
    } else {
      var d := SecondReplaced(b, c, node);
      BothGone(b, node, d);
    }
  }

  lemma {:induction false} FirstGone(b: Bucket, node: Node, second: bool, c: Bucket)
    requires b.size > 1 && |b.nodes| == b.size && (SecondPinged(b, node, false) ==> second)
    requires Became(b, c, node, {b.nodes[0]}) && AtEnd(c, node) && HasKey(c.nodes, node.id)
    ensures MembersOk(b, node, false, second, c)
  {
    assert {b.nodes[0]} + {} == {b.nodes[0]};
  }

  lemma {:induction false} BothGone(b: Bucket, node: Node, d: Bucket)
    requires b.size > 1 && |b.nodes| == b.size && SecondPinged(b, node, false)
    requires Became(b, d, node, {b.nodes[0]} + {b.nodes[1]}) && AtEnd(d, node) && HasKey(d.nodes, node.id)
    ensures MembersOk(b, node, false, false, d)
  {
  }

  lemma {:induction false} EndHasKey(b: Bucket, node: Node)
    requires Tidy(b) && |b.nodes| < b.size
    ensures AtEnd(Added(b, node), node) && HasKey(Added(b, node).nodes, node.id)
    ensures Became(b, Added(b, node), node, {})
  {
    AddedTidy(b, node);
  }

  /** The first replacement in a full bucket. */
  lemma {:induction false} FirstReplaced(b: Bucket, node: Node) returns (c: Bucket)
    requires Tidy(b) && b.size > 1 && |b.nodes| == b.size
    ensures c == Evicted(b, node) && Became(b, c, node, {b.nodes[0]}) && AtEnd(c, node) && HasKey(c.nodes, node.id)
    ensures |c.nodes| == c.size <==> !HasKey(b.nodes, node.id) || b.nodes[0].id == node.id
    ensures |c.nodes| == c.size ==> c.nodes[0] == b.nodes[1]
    ensures Added(c, node) == c
  {
    c := Evicted(b, node);
    EvictedBecame(b, node);
    StillFull(b, node);
    AddedAgain(c, node);
    if |c.nodes| == c.size { NextOldest(b, node); }
  }

  /** And the second, in a bucket that is full again. */
  lemma {:induction false} SecondReplaced(b: Bucket, c: Bucket, node: Node) returns (d: Bucket)
    requires Tidy(b) && b.size > 1 && |b.nodes| == b.size && Became(b, c, node, {b.nodes[0]})
    requires |c.nodes| == c.size && c.nodes[0] == b.nodes[1]
    ensures d == Evicted(c, node) && Became(b, d, node, {b.nodes[0]} + {b.nodes[1]})
    ensures AtEnd(d, node) && HasKey(d.nodes, node.id) && Added(d, node) == d
  {
    d := Evicted(c, node);
    EvictedBecame(c, node);
    AddedAgain(d, node);
    BecameAgain(b, c, d, node, {b.nodes[0]}, {b.nodes[1]});
  }

  /** After a replacement that leaves the bucket full, the second oldest is the oldest. */
  lemma {:induction false} NextOldest(b: Bucket, node: Node)
    requires Tidy(b) && b.size > 1 && |b.nodes| == b.size && |Evicted(b, node).nodes| == b.size
    ensures Evicted(b, node).nodes[0] == b.nodes[1]
  {
    StillFull(b, node);
    var rest := b.nodes[1..];
    assert forall i :: 0 <= i < |rest| ==> rest[i] == b.nodes[i + 1];
    assert !HasKey(rest, node.id);
  }
}
