/** What a lookup leaves in the routing table: the ends of its requests, each applied in its turn. */
module LookupTable {
  import opened Bytes
  import opened Keys
  import opened KBucket
  import opened RouteTable
  import Ack = Acknowledge

  /** What a lookup does and sees, in order. */
  datatype Event = Asked(node: Node) | Answered(node: Node, nodes: seq<Node>) | Failed(node: Node)

  /** What the acknowledgement of a node makes of the table. */
  function AckTable(sha: Sha, t: Table, node: Node, ping: nat -> bool): Table {
    var index := BucketIndex(sha, t.host.id, node.id);
    if node.id == t.host.id || index >= |t.buckets| || t.buckets[index].size == 0 then t
    else Ack.With(t, index, Ack.Acknowledged(t.buckets[index], node, ping(0), ping(1)).0)
  }

  /** What one event makes of the table: a node that failed leaves it, one that answered is acknowledged in it. */
  function TableStep(sha: Sha, t: Table, e: Event, ping: nat -> bool): Table {
    match e
    case Asked(_) => t
    case Answered(n, _) => AckTable(sha, t, n, ping)
    case Failed(n) => RemovedFrom(sha, t, n)
  }

  /** The ends of requests among the events, in order. */
  function Ends(log: seq<Event>): seq<Event> {
    if log == [] then [] else Ends(Front(log)) + if Last(log).Asked? then [] else [Last(log)]
  }

  lemma {:induction false} EndsAre(log: seq<Event>)
    ensures forall e :: e in Ends(log) <==> e in log && !e.Asked?
  {
    if log != [] {
      EndsAre(Front(log));
      assert log == Front(log) + [Last(log)];
    }
  }

  /** The table after a run of ends; the pings of the k-th come out as `ping(k)` says. */
  function TableAfter(sha: Sha, t: Table, ends: seq<Event>, ping: nat -> (nat -> bool)): Table {
    if ends == [] then t
    else TableStep(sha, TableAfter(sha, t, Front(ends), ping), Last(ends), ping(|ends| - 1))
  }

  lemma {:induction false} TableAfterEnd(sha: Sha, t: Table, ends: seq<Event>, e: Event, ping: nat -> (nat -> bool))
    ensures TableAfter(sha, t, ends + [e], ping) == TableStep(sha, TableAfter(sha, t, ends, ping), e, ping(|ends|))
  {
    assert Front(ends + [e]) == ends;
  }

  /** Some bucket holds the key. */
  ghost predicate HasNode(t: Table, key: Key) {
    exists i :: 0 <= i < |t.buckets| && HasKey(t.buckets[i].nodes, key)
  }

  function Home(sha: Sha, t: Table, key: Key): (b: Bucket)
    requires |t.buckets| == BUCKETS
  {
    t.buckets[BucketIndex(sha, t.host.id, key)]
  }

  /** In a table in order a key is in its own bucket or nowhere. */
  lemma {:induction false} AtHome(sha: Sha, t: Table, key: Key)
    requires Inv(sha, t)
    ensures HasNode(t, key) <==> HasKey(Home(sha, t, key).nodes, key)
  {
    if HasNode(t, key) {
      var i :| 0 <= i < |t.buckets| && HasKey(t.buckets[i].nodes, key);
      var p :| 0 <= p < |t.buckets[i].nodes| && t.buckets[i].nodes[p].id == key;
      assert BucketOk(sha, t.host.id, t.buckets[i], i);
      assert t.buckets[i].nodes[p] in t.buckets[i].nodes;
    }
  }

  /** A node that failed is nowhere in the table afterwards, and every node with another key is where it was. */
  lemma {:induction false} FailedLeaves(sha: Sha, t: Table, n: Node, ping: nat -> bool)
    requires Inv(sha, t)
    ensures var u := TableStep(sha, t, Failed(n), ping);
            && Inv(sha, u) && u.host == t.host && !HasNode(u, n.id)
            && forall i, m: Node :: 0 <= i < BUCKETS && m.id != n.id ==>
                 (m in u.buckets[i].nodes <==> m in t.buckets[i].nodes)
  {
    var u := TableStep(sha, t, Failed(n), ping);
    var b := Home(sha, t, n.id);
    RemoveKeeps(sha, t, n);
    assert BucketOk(sha, t.host.id, b, BucketIndex(sha, t.host.id, n.id));
    RemovedTidy(b, n.id);
    var c := Home(sha, u, n.id);
    assert forall i :: 0 <= i < |c.nodes| ==> c.nodes[i] in c.nodes;
    AtHome(sha, u, n.id);
  }

  /** The key's node fails a ping sent while `node`, of the same bucket, is acknowledged. */
  ghost predicate PingFails(b: Bucket, node: Node, ping: nat -> bool, key: Key)
    requires b.size > 1
  {
    || (Ack.FirstGoes(b, ping(0)) && b.nodes[0].id == key)
    || (Ack.SecondPinged(b, node, ping(0)) && !ping(1) && b.nodes[1].id == key)
  }

  /** A node that answered is in its bucket afterwards if and only if it was there, there was room, or the oldest node
      failed its ping; unless that node answered its ping it is there with its present address. Of the other nodes of
      the bucket exactly those that failed their ping are gone, and no other bucket has changed. */
  lemma {:induction false} AnsweredStays(sha: Sha, t: Table, n: Node, nodes: seq<Node>, ping: nat -> bool)
    requires Inv(sha, t) && n.id != t.host.id
    ensures var u, b := TableStep(sha, t, Answered(n, nodes), ping), Home(sha, t, n.id);
            && Inv(sha, u) && SameOutside(t, u, BucketIndex(sha, t.host.id, n.id))
            && (HasNode(u, n.id) <==> HasNode(t, n.id) || |b.nodes| < KBUCKET_MAX || !ping(0))
            && (|b.nodes| < KBUCKET_MAX || !ping(0) ==> n in Home(sha, u, n.id).nodes)
            && (forall m :: m in Home(sha, u, n.id).nodes ==> m == n || m in b.nodes)
            && (forall m :: m in b.nodes && m.id != n.id ==>
                  (m in Home(sha, u, n.id).nodes <==> !PingFails(b, n, ping, m.id)))
  {
    var u, b := TableStep(sha, t, Answered(n, nodes), ping), Home(sha, t, n.id);
    var index := BucketIndex(sha, t.host.id, n.id);
    assert BucketOk(sha, t.host.id, b, index);
    Ack.AcknowledgeOutcome(b, n, ping(0), ping(1));
    var c := Home(sha, u, n.id);
    assert BucketOk(sha, t.host.id, c, index);
    AtHome(sha, t, n.id);
    AtHome(sha, u, n.id);
    ByKey(b, n, ping, c);
  }

  /** Within a bucket a node is told by its key. */
  lemma {:induction false} ByKey(b: Bucket, n: Node, ping: nat -> bool, c: Bucket)
    requires Tidy(b) && b.size > 1 && Ack.MembersOk(b, n, ping(0), ping(1), c)
    ensures forall m :: m in b.nodes && m.id != n.id ==> (m in c.nodes <==> !PingFails(b, n, ping, m.id))
  {
    forall m | m in b.nodes && m.id != n.id ensures m in c.nodes <==> !PingFails(b, n, ping, m.id) {
      var i :| 0 <= i < |b.nodes| && b.nodes[i] == m;
      if Ack.FirstGoes(b, ping(0)) { assert b.nodes[0].id == m.id <==> b.nodes[0] == m; }
      if Ack.SecondPinged(b, n, ping(0)) { assert b.nodes[1].id == m.id <==> b.nodes[1] == m; }
    }
  }

  /** The end `e` of a request costs the key its place: its node fails a ping sent on account of `e`. */
  ghost predicate Drops(sha: Sha, t: Table, e: Event, ping: nat -> bool, key: Key)
    requires Inv(sha, t)
  {
    && e.Answered? && Home(sha, t, e.node.id).size > 1
    && BucketIndex(sha, t.host.id, key) == BucketIndex(sha, t.host.id, e.node.id)
    && PingFails(Home(sha, t, e.node.id), e.node, ping, key)
  }

  /** One end and a key that is not its own. */
  lemma {:induction false} OtherKey(sha: Sha, t: Table, e: Event, ping: nat -> bool, key: Key)
    requires Inv(sha, t) && !e.Asked? && e.node.id != t.host.id && key != e.node.id
    ensures var u := TableStep(sha, t, e, ping);
            Inv(sha, u) && u.host == t.host && (HasNode(u, key) <==> HasNode(t, key) && !Drops(sha, t, e, ping, key))
  {
    var u := TableStep(sha, t, e, ping);
    AtHome(sha, t, key);
    match e
    case Failed(n) =>
      FailedLeaves(sha, t, n, ping);
      AtHome(sha, u, key);
      SameKeys(Home(sha, t, key).nodes, Home(sha, u, key).nodes, key);
    case Answered(n, nodes) =>
      AnsweredStays(sha, t, n, nodes, ping);
      AtHome(sha, u, key);
      if BucketIndex(sha, t.host.id, key) == BucketIndex(sha, t.host.id, n.id) {
        KeyOf(Home(sha, t, key).nodes, key);
        KeyOf(Home(sha, u, key).nodes, key);
      }
  }

  lemma {:induction false} KeyOf(nodes: seq<Node>, key: Key)
    ensures HasKey(nodes, key) <==> exists m :: m in nodes && m.id == key
  {
    if m :| m in nodes && m.id == key {
      var i :| 0 <= i < |nodes| && nodes[i] == m;
    }
    if HasKey(nodes, key) {
      var i :| 0 <= i < |nodes| && nodes[i].id == key;
      assert nodes[i] in nodes;
    }
  }

  lemma {:induction false} SameKeys(a: seq<Node>, b: seq<Node>, key: Key)
    requires forall m: Node :: m.id == key ==> (m in a <==> m in b)
    ensures HasKey(a, key) <==> HasKey(b, key)
  {
    KeyOf(a, key);
    KeyOf(b, key);
  }

  /** Every request ends once, and none is to the host. */
  ghost predicate EndsOk(host: Key, ends: seq<Event>) {
    && (forall p :: 0 <= p < |ends| ==> !ends[p].Asked? && ends[p].node.id != host)
    && forall p, q :: 0 <= p < q < |ends| ==> ends[p].node.id != ends[q].node.id
  }

  ghost predicate NotEnded(ends: seq<Event>, key: Key) {
    forall p :: 0 <= p < |ends| ==> ends[p].node.id != key
  }

  /** The table as end `p` finds it. */
  function TableAt(sha: Sha, t: Table, ends: seq<Event>, ping: nat -> (nat -> bool), p: nat): Table
    requires p <= |ends|
  {
    TableAfter(sha, t, ends[..p], ping)
  }

  lemma {:induction false} OneMore(sha: Sha, t: Table, ends: seq<Event>, ping: nat -> (nat -> bool), p: nat)
    requires p < |ends|
    ensures TableAt(sha, t, ends, ping, p + 1) == TableStep(sha, TableAt(sha, t, ends, ping, p), ends[p], ping(p))
  {
    assert ends[..p + 1] == ends[..p] + [ends[p]];
    TableAfterEnd(sha, t, ends[..p], ends[p], ping);
  }

  lemma {:induction false} StepInv(sha: Sha, t: Table, e: Event, ping: nat -> bool)
    requires Inv(sha, t) && !e.Asked? && e.node.id != t.host.id
    ensures Inv(sha, TableStep(sha, t, e, ping)) && TableStep(sha, t, e, ping).host == t.host
  {
    match e
    case Failed(n) => FailedLeaves(sha, t, n, ping);
    case Answered(n, nodes) => AnsweredStays(sha, t, n, nodes, ping);
  }

  lemma {:induction false} TableAtInv(sha: Sha, t: Table, ends: seq<Event>, ping: nat -> (nat -> bool), p: nat)
    requires Inv(sha, t) && EndsOk(t.host.id, ends) && p <= |ends|
    ensures Inv(sha, TableAt(sha, t, ends, ping, p)) && TableAt(sha, t, ends, ping, p).host == t.host
  {
    if p > 0 {
      TableAtInv(sha, t, ends, ping, p - 1);
      OneMore(sha, t, ends, ping, p - 1);
      StepInv(sha, TableAt(sha, t, ends, ping, p - 1), ends[p - 1], ping(p - 1));
    }
  }

  /** End `q` costs the key its place. */
  ghost predicate DropsAt(sha: Sha, t: Table, ends: seq<Event>, ping: nat -> (nat -> bool), q: nat, key: Key)
    requires q < |ends|
  {
    var u := TableAt(sha, t, ends, ping, q);
    Inv(sha, u) && Drops(sha, u, ends[q], ping(q), key)
  }

  ghost predicate Spared(sha: Sha, t: Table, ends: seq<Event>, ping: nat -> (nat -> bool), p: nat, key: Key) {
    forall q :: p <= q < |ends| ==> !DropsAt(sha, t, ends, ping, q, key)
  }

  /** From end `p` on, a key no request to which ends any more keeps its place unless it fails a ping; and it does not
      come in. */
  lemma {:induction false} StaysFrom(sha: Sha, t: Table, ends: seq<Event>, ping: nat -> (nat -> bool), p: nat, key: Key)
    requires Inv(sha, t) && EndsOk(t.host.id, ends) && p <= |ends|
    requires forall q :: p <= q < |ends| ==> ends[q].node.id != key
    ensures HasNode(TableAt(sha, t, ends, ping, |ends|), key) <==>
            HasNode(TableAt(sha, t, ends, ping, p), key) && Spared(sha, t, ends, ping, p, key)
    decreases |ends| - p
  {
    if p < |ends| {
      TableAtInv(sha, t, ends, ping, p);
      OneMore(sha, t, ends, ping, p);
      OtherKey(sha, TableAt(sha, t, ends, ping, p), ends[p], ping(p), key);
      StaysFrom(sha, t, ends, ping, p + 1, key);
      assert Spared(sha, t, ends, ping, p, key) <==>
             !DropsAt(sha, t, ends, ping, p, key) && Spared(sha, t, ends, ping, p + 1, key);
    }
  }

  /** A node that answers gets in, or is in already. */
  ghost predicate GetsIn(sha: Sha, t: Table, n: Node, ping: nat -> bool)
    requires |t.buckets| == BUCKETS
  {
    HasNode(t, n.id) || |Home(sha, t, n.id).nodes| < KBUCKET_MAX || !ping(0)
  }

  /** Which keys `u` holds, told from the table `t` before, the ends and the pings. */
  ghost predicate Tells(sha: Sha, t: Table, ends: seq<Event>, ping: nat -> (nat -> bool), u: Table)
    requires Inv(sha, t) && EndsOk(t.host.id, ends)
  {
    && (forall p :: 0 <= p < |ends| && ends[p].Failed? ==> !HasNode(u, ends[p].node.id))
    && (forall p :: 0 <= p < |ends| && ends[p].Answered? ==>
          (HasNode(u, ends[p].node.id) <==>
           AnswerGetsIn(sha, t, ends, ping, p) && Spared(sha, t, ends, ping, p + 1, ends[p].node.id)))
    && (forall key :: NotEnded(ends, key) ==>
          (HasNode(u, key) <==> HasNode(t, key) && Spared(sha, t, ends, ping, 0, key)))
    && (forall i, m :: 0 <= i < |u.buckets| && m in u.buckets[i].nodes ==>
          (i < |t.buckets| && m in t.buckets[i].nodes) || HasAnswered(ends, m))
  }

  ghost predicate AnswerGetsIn(sha: Sha, t: Table, ends: seq<Event>, ping: nat -> (nat -> bool), p: nat)
    requires p < |ends|
  {
    var u := TableAt(sha, t, ends, ping, p);
    |u.buckets| == BUCKETS && GetsIn(sha, u, ends[p].node, ping(p))
  }

  ghost predicate HasAnswered(ends: seq<Event>, m: Node) {
    exists p :: 0 <= p < |ends| && ends[p].Answered? && ends[p].node == m
  }

  lemma {:induction false} FailedStaysOut(sha: Sha, t: Table, ends: seq<Event>, ping: nat -> (nat -> bool), p: nat)
    requires Inv(sha, t) && EndsOk(t.host.id, ends) && p < |ends| && ends[p].Failed?
    ensures !HasNode(TableAt(sha, t, ends, ping, |ends|), ends[p].node.id)
  {
    TableAtInv(sha, t, ends, ping, p);
    OneMore(sha, t, ends, ping, p);
    FailedLeaves(sha, TableAt(sha, t, ends, ping, p), ends[p].node, ping(p));
    StaysFrom(sha, t, ends, ping, p + 1, ends[p].node.id);
  }

  lemma {:induction false} AnsweredAtEnd(sha: Sha, t: Table, ends: seq<Event>, ping: nat -> (nat -> bool), p: nat)
    requires Inv(sha, t) && EndsOk(t.host.id, ends) && p < |ends| && ends[p].Answered?
    ensures HasNode(TableAt(sha, t, ends, ping, |ends|), ends[p].node.id) <==>
            AnswerGetsIn(sha, t, ends, ping, p) && Spared(sha, t, ends, ping, p + 1, ends[p].node.id)
  {
    TableAtInv(sha, t, ends, ping, p);
    OneMore(sha, t, ends, ping, p);
    AnsweredStays(sha, TableAt(sha, t, ends, ping, p), ends[p].node, ends[p].nodes, ping(p));
    StaysFrom(sha, t, ends, ping, p + 1, ends[p].node.id);
  }

  lemma {:induction false} NothingElse(sha: Sha, t: Table, ends: seq<Event>, ping: nat -> (nat -> bool), p: nat, i: nat,
                                       m: Node)
    requires Inv(sha, t) && EndsOk(t.host.id, ends) && p <= |ends| && i < BUCKETS
    requires var u := TableAt(sha, t, ends, ping, p); |u.buckets| == BUCKETS && m in u.buckets[i].nodes
    ensures m in t.buckets[i].nodes || HasAnswered(ends, m)
  {
    if p > 0 {
      var q := p - 1;
      var before := TableAt(sha, t, ends, ping, q);
      TableAtInv(sha, t, ends, ping, q);
      OneMore(sha, t, ends, ping, q);
      var n := ends[q].node;
      if ends[q].Failed? {
        FailedLeaves(sha, before, n, ping(q));
        TableAtInv(sha, t, ends, ping, p);
        assert m.id != n.id by { StillAbsent(TableAt(sha, t, ends, ping, p), i, m, n.id); }
      } else {
        AnsweredStays(sha, before, n, ends[q].nodes, ping(q));
      }
      if !HasAnswered(ends, m) { NothingElse(sha, t, ends, ping, q, i, m); }
    }
  }

  lemma {:induction false} StillAbsent(t: Table, i: nat, m: Node, key: Key)
    requires !HasNode(t, key) && i < |t.buckets| && m in t.buckets[i].nodes
    ensures m.id != key
  {
    KeyOf(t.buckets[i].nodes, key);
  }

  /** The table after any ends, each of another request. Whoever failed is in no bucket. Whoever answered is in if and
      only if it was there, found room, or the oldest node failed its ping, and it has not failed a ping since. Any
      other key is in if and only if it was in before and has not failed a ping. Nothing else is in. */
  lemma {:induction false} TableOutcome(sha: Sha, t: Table, ends: seq<Event>, ping: nat -> (nat -> bool))
    requires Inv(sha, t) && EndsOk(t.host.id, ends)
    ensures Tells(sha, t, ends, ping, TableAfter(sha, t, ends, ping))
  {
    assert ends[..|ends|] == ends && ends[..0] == [];
    var u := TableAfter(sha, t, ends, ping);
    TableAtInv(sha, t, ends, ping, |ends|);
    forall p | 0 <= p < |ends| && ends[p].Failed? ensures !HasNode(u, ends[p].node.id) {
      FailedStaysOut(sha, t, ends, ping, p);
    }
    forall p | 0 <= p < |ends| && ends[p].Answered?
      ensures HasNode(u, ends[p].node.id) <==>
              AnswerGetsIn(sha, t, ends, ping, p) && Spared(sha, t, ends, ping, p + 1, ends[p].node.id)
    {
      AnsweredAtEnd(sha, t, ends, ping, p);
    }
    forall key | NotEnded(ends, key)
      ensures HasNode(u, key) <==> HasNode(t, key) && Spared(sha, t, ends, ping, 0, key)
    {
      StaysFrom(sha, t, ends, ping, 0, key);
    }
    forall i, m | 0 <= i < |u.buckets| && m in u.buckets[i].nodes
      ensures m in t.buckets[i].nodes || HasAnswered(ends, m)
    {
      NothingElse(sha, t, ends, ping, |ends|, i, m);
    }
  }
}
