/** Sorting by distance and the k closest nodes of a table. */
module Closest {
  import opened Bytes
  import opened Keys
  import opened KBucket
  import opened RouteTable

  type Rank = Key -> nat

  /** The order of `sort_by_key(|node| target.distance(&node.id))`. */
  function DistanceTo(sha: Sha, target: Key): Rank {
    (key: Key) => Keys.Rank(sha, target, key)
  }

  ghost predicate Sorted(rank: Rank, s: seq<Node>) {
    forall i, j :: 0 <= i <= j < |s| ==> rank(s[i].id) <= rank(s[j].id)
  }

  function Ids(s: seq<Node>): set<Key> {
    set i | 0 <= i < |s| :: s[i].id
  }

  /** Stable insertion and the stable sort it makes: Rust's `sort_by_key`. */
  function Put(rank: Rank, node: Node, s: seq<Node>): seq<Node> {
    if s == [] || rank(node.id) <= rank(s[0].id) then [node] + s else [s[0]] + Put(rank, node, s[1..])
  }

  function Sort(rank: Rank, s: seq<Node>): seq<Node> {
    if s == [] then [] else Put(rank, s[0], Sort(rank, s[1..]))
  }

  lemma {:induction false} PutPermutes(rank: Rank, node: Node, s: seq<Node>)
    ensures multiset(Put(rank, node, s)) == multiset(s) + multiset{node}
  {
    if s != [] && rank(node.id) > rank(s[0].id) {
      PutPermutes(rank, node, s[1..]);
      assert s == [s[0]] + s[1..];
    }
  }

  /** A node no closer than the first goes in front of a sorted list. */
  lemma {:induction false} SortedFirst(rank: Rank, node: Node, s: seq<Node>)
    requires Sorted(rank, s) && forall n :: n in s ==> rank(node.id) <= rank(n.id)
    ensures Sorted(rank, [node] + s)
  {
    assert forall i :: 0 <= i < |s| ==> s[i] in s;
  }

  lemma {:induction false} PutFacts(rank: Rank, node: Node, s: seq<Node>)
    ensures multiset(Put(rank, node, s)) == multiset(s) + multiset{node}
    ensures Sorted(rank, s) ==> Sorted(rank, Put(rank, node, s))
  {
    PutPermutes(rank, node, s);
    if Sorted(rank, s) { PutSorted(rank, node, s); }
  }

  lemma {:induction false} PutSorted(rank: Rank, node: Node, s: seq<Node>)
    requires Sorted(rank, s)
    ensures Sorted(rank, Put(rank, node, s))
  {
    if s == [] || rank(node.id) <= rank(s[0].id) {
      forall n | n in s ensures rank(node.id) <= rank(n.id) {
        var i :| 0 <= i < |s| && s[i] == n;
      }
      SortedFirst(rank, node, s);
    } else {
      var rest := s[1..];
      var p := Put(rank, node, rest);
      PutSorted(rank, node, rest);
      PutPermutes(rank, node, rest);
      forall n | n in p ensures rank(s[0].id) <= rank(n.id) {
        assert n in multiset(p);
        if n != node {
          var i :| 0 <= i < |rest| && rest[i] == n;
          assert s[i + 1] == n;
        }
      }
      SortedFirst(rank, s[0], p);
    }
  }

  /** Sorting sorts, and permutes. */
  lemma {:induction false} SortFacts(rank: Rank, s: seq<Node>)
    ensures Sorted(rank, Sort(rank, s)) && multiset(Sort(rank, s)) == multiset(s)
  {
    if s != [] {
      SortFacts(rank, s[1..]);
      PutFacts(rank, s[0], Sort(rank, s[1..]));
      assert s == [s[0]] + s[1..];
    }
  }

  lemma {:induction false} IdsOfAppend(s: seq<Node>, t: seq<Node>)
    ensures Ids(s + t) == Ids(s) + Ids(t)
  {
    var u := s + t;
    forall k | k in Ids(s) ensures k in Ids(u) {
      var i :| 0 <= i < |s| && s[i].id == k;
      assert u[i] == s[i];
    }
    forall k | k in Ids(t) ensures k in Ids(u) {
      var i :| 0 <= i < |t| && t[i].id == k;
      assert u[|s| + i] == t[i];
    }
  }

  lemma {:induction false} IdsOfFirst(s: seq<Node>)
    requires s != []
    ensures Ids(s) == {s[0].id} + Ids(s[1..])
  {
    IdsOfAppend([s[0]], s[1..]);
    assert [s[0]] + s[1..] == s;
    assert Ids([s[0]]) == {s[0].id} by { assert [s[0]][0].id in Ids([s[0]]); }
  }

  /** A permutation has the same ids, and distinct ones if they were distinct. */
  lemma {:induction false} PutIds(rank: Rank, node: Node, s: seq<Node>)
    ensures Ids(Put(rank, node, s)) == Ids(s) + {node.id} && |Put(rank, node, s)| == |s| + 1
    ensures DistinctIds(s) && node.id !in Ids(s) ==> DistinctIds(Put(rank, node, s))
  {
    if s == [] || rank(node.id) <= rank(s[0].id) {
      IdsOfFirst([node] + s);
    } else {
      var rest := s[1..];
      PutIds(rank, node, rest);
      IdsOfFirst(s);
      IdsOfFirst([s[0]] + Put(rank, node, rest));
      if DistinctIds(s) && node.id !in Ids(s) {
        assert s[0].id !in Ids(rest);
        HeadDistinct(s[0], Put(rank, node, rest));
      }
    }
  }

  lemma {:induction false} HeadDistinct(node: Node, s: seq<Node>)
    requires DistinctIds(s) && node.id !in Ids(s)
    ensures DistinctIds([node] + s)
  {
    assert forall i :: 0 <= i < |s| ==> s[i].id in Ids(s);
  }

  lemma {:induction false} SortIds(rank: Rank, s: seq<Node>)
    ensures Ids(Sort(rank, s)) == Ids(s) && |Sort(rank, s)| == |s|
    ensures DistinctIds(s) ==> DistinctIds(Sort(rank, s))
  {
    if s != [] {
      var rest := s[1..];
      SortIds(rank, rest);
      PutIds(rank, s[0], Sort(rank, rest));
      IdsOfFirst(s);
    }
  }

  lemma {:induction false} IdsSize(s: seq<Node>)
    requires DistinctIds(s)
    ensures |Ids(s)| == |s|
  {
    if s != [] {
      var rest := s[1..];
      IdsSize(rest);
      IdsOfFirst(s);
      assert s[0].id !in Ids(rest);
    }
  }

  /** `r` lists the `k` closest of `pool`, closest first; among equally distant ones any may be chosen. */
  ghost predicate IsClosest(rank: Rank, r: seq<Node>, pool: set<Key>, k: nat) {
    && Sorted(rank, r) && DistinctIds(r) && Ids(r) <= pool && |r| == Min(k, |pool|)
    && forall x, i :: x in pool && x !in Ids(r) && 0 <= i < |r| ==> rank(r[i].id) <= rank(x)
  }

  lemma {:induction false} RestIsFarther(rank: Rank, s: seq<Node>, m: nat, i: nat, x: Key)
    requires Sorted(rank, s) && i < m <= |s| && x in Ids(s[m..])
    ensures rank(s[i].id) <= rank(x)
  {
    var j :| 0 <= j < |s[m..]| && s[m..][j].id == x;
    assert s[m..][j] == s[m + j];
  }

  lemma {:induction false} FirstOf(rank: Rank, s: seq<Node>, m: nat) returns (r: seq<Node>)
    requires Sorted(rank, s) && DistinctIds(s) && m <= |s|
    ensures r == s[..m] && Sorted(rank, r) && DistinctIds(r) && Ids(s) == Ids(r) + Ids(s[m..])
  {
    r := s[..m];
    assert r + s[m..] == s;
    IdsOfAppend(r, s[m..]);
  }

  lemma {:induction false} TakeIsClosest(rank: Rank, s: seq<Node>, k: nat)
    requires Sorted(rank, s) && DistinctIds(s)
    ensures IsClosest(rank, s[..Min(k, |s|)], Ids(s), k)
  {
    var m := Min(k, |s|);
    var r := FirstOf(rank, s, m);
    IdsSize(s);
    forall x, i | x in Ids(s) && x !in Ids(r) && 0 <= i < |r| ensures rank(r[i].id) <= rank(x) {
      RestIsFarther(rank, s, m, i, x);
    }
  }

  /** Two lists of the closest can differ in ties only: what one has and the other lacks is equally far away. */
  lemma {:induction false} ClosestUpToTies(rank: Rank, r: seq<Node>, s: seq<Node>, pool: set<Key>, k: nat, x: Key,
                                           y: Key)
    requires IsClosest(rank, r, pool, k) && IsClosest(rank, s, pool, k)
    requires x in Ids(r) && x !in Ids(s) && y in Ids(s) && y !in Ids(r)
    ensures rank(x) == rank(y)
  {
    var i :| 0 <= i < |r| && r[i].id == x;
    var j :| 0 <= j < |s| && s[j].id == y;
    assert rank(r[i].id) <= rank(y) && rank(s[j].id) <= rank(x);
  }

  lemma {:induction false} HostAbsent(nodes: seq<Node>, host: Key)
    requires forall n :: n in nodes ==> n.id != host
    ensures Without(nodes, host) == nodes
  {
    assert forall i :: 0 <= i < |nodes| ==> nodes[i] in nodes;
    WithoutAbsent(nodes, host);
  }

  /** The nodes of the buckets from `from` on carry distinct keys, each indexing one of those buckets. */
  lemma {:induction false} TableDistinct(sha: Sha, t: Table, from: nat)
    requires Inv(sha, t) && from <= BUCKETS
    ensures DistinctIds(NodesFrom(t.buckets[from..]))
    ensures forall n :: n in NodesFrom(t.buckets[from..]) ==>
              n.id != t.host.id && BucketIndex(sha, t.host.id, n.id) >= from
    decreases BUCKETS - from
  {
    if from < BUCKETS {
      TableDistinct(sha, t, from + 1);
      assert BucketOk(sha, t.host.id, t.buckets[from], from);
      assert t.buckets[from..][0] == t.buckets[from] && t.buckets[from..][1..] == t.buckets[from + 1..];
      var here, rest := t.buckets[from].nodes, NodesFrom(t.buckets[from + 1..]);
      assert NodesFrom(t.buckets[from..]) == here + rest;
      assert forall i :: 0 <= i < |here| ==> here[i] in here;
      assert forall i :: 0 <= i < |rest| ==> rest[i] in rest;
    }
  }

  method CollectNodes(table: RouteTable) returns (all: seq<Node>)
    requires table.Valid() && Inv(table.sha, table.model)
    ensures all == NodesFrom(table.model.buckets)
  {
    all := [];
    ghost var t := table.model;
    assert t.buckets[0..] == t.buckets;
    for i := 0 to |table.kbuckets|
      invariant all + NodesFrom(t.buckets[i..]) == NodesFrom(t.buckets)
    {
      NextBucket(table.sha, t, i, all);
      all := all + Without(table.kbuckets[i].nodes, table.host.id);
    }
  }

  lemma {:induction false} NextBucket(sha: Sha, t: Table, i: nat, all: seq<Node>)
    requires Inv(sha, t) && i < |t.buckets|
    ensures all + NodesFrom(t.buckets[i..]) ==
            (all + Without(t.buckets[i].nodes, t.host.id)) + NodesFrom(t.buckets[i + 1..])
  {
    assert BucketOk(sha, t.host.id, t.buckets[i], i);
    assert t.buckets[i..][0] == t.buckets[i] && t.buckets[i..][1..] == t.buckets[i + 1..];
    HostAbsent(t.buckets[i].nodes, t.host.id);
  }

  lemma {:induction false} HostNotListed(sha: Sha, t: Table)
    requires Inv(sha, t)
    ensures DistinctIds(NodesFrom(t.buckets)) && t.host.id !in Ids(NodesFrom(t.buckets))
  {
    TableDistinct(sha, t, 0);
    assert t.buckets[0..] == t.buckets;
    var all := NodesFrom(t.buckets);
    assert forall i :: 0 <= i < |all| ==> all[i] in all;
  }

  /** `RouteTable::get_closest_nodes`. */
  method GetClosestNodes(table: RouteTable, key: Key, count: nat) returns (r: seq<Node>)
    requires table.Valid() && Inv(table.sha, table.model)
    ensures IsClosest(DistanceTo(table.sha, key), r, Ids(NodesFrom(table.model.buckets)), count)
    ensures table.host.id !in Ids(r) && forall n :: n in r ==> n in NodesFrom(table.model.buckets)
  {
    var all := CollectNodes(table);
    HostNotListed(table.sha, table.model);
    var rank := DistanceTo(table.sha, key);
    SortFacts(rank, all);
    SortIds(rank, all);
    var distances := Sort(rank, all);
    TakeIsClosest(rank, distances, count);
    r := distances[..Min(count, |distances|)];
    forall n | n in r ensures n in all {
      assert n in multiset(distances);
      assert n in multiset(all);
    }
  }
}
