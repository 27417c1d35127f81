/** DHT keys and nodes. A distance is itself hashed again, so "closer" means closer in that hashed order. */
module Keys {
  import opened Bytes
  import opened Xor

  /** Equality compares both parts; the order compares the 32-byte id only. */
  datatype Key = Key(id: Digest, pubKey: seq<byte>)

  datatype Node = Node(id: Key, addr: int)

  function NewKey(sha: Sha, pubKey: seq<byte>): Key {
    Key(sha(pubKey), pubKey)
  }

  function XorBytes(a: seq<byte>, b: seq<byte>): (r: seq<byte>)
    requires |a| == |b|
    ensures |r| == |a|
  {
    if a == [] then [] else [XorByte(a[0], b[0])] + XorBytes(a[1..], b[1..])
  }

  /** The string a distance is the hash of has a bit set exactly where the two ids differ. */
  lemma {:induction false} XorBit(a: seq<byte>, b: seq<byte>, i: nat, j: nat)
    requires |a| == |b| && i < |a| && j < 8
    ensures BitOf(XorBytes(a, b)[i], j) <==> BitOf(a[i], j) != BitOf(b[i], j)
  {
    XorAtIndex(a, b, i);
  }

  lemma {:induction false} XorAtIndex(a: seq<byte>, b: seq<byte>, i: nat)
    requires |a| == |b| && i < |a|
    ensures XorBytes(a, b)[i] == XorByte(a[i], b[i])
  {
    if i > 0 { XorAtIndex(a[1..], b[1..], i - 1); }
  }

  /** The operation is symmetric, gives zeros for equal strings, and either string comes back from the other and the
      result. */
  lemma {:induction false} XorLaws(a: seq<byte>, b: seq<byte>)
    requires |a| == |b|
    ensures XorBytes(a, b) == XorBytes(b, a) && XorBytes(a, XorBytes(a, b)) == b
    ensures XorBytes(a, b) == seq(|a|, _ => 0) <==> a == b
  {
    var zeros := seq<byte>(|a|, _ => 0);
    forall i | 0 <= i < |a|
      ensures XorBytes(a, b)[i] == XorBytes(b, a)[i] && XorBytes(a, XorBytes(a, b))[i] == b[i]
      ensures XorBytes(a, b)[i] == zeros[i] <==> a[i] == b[i]
    {
      XorAtIndex(a, b, i);
      XorAtIndex(b, a, i);
      XorAtIndex(a, XorBytes(a, b), i);
      XorByteLaws(a[i], b[i]);
    }
    if XorBytes(a, b) == zeros {
      assert forall i :: 0 <= i < |a| ==> XorBytes(a, b)[i] == zeros[i];
    }
  }

  function Distance(sha: Sha, a: Key, b: Key): Key {
    NewKey(sha, XorBytes(a.id, b.id))
  }

  /** `Key::distance`: a loop over the bytes of the two ids, then the hash. */
  method KeyDistance(sha: Sha, a: Key, b: Key) returns (d: Key)
    ensures d == Distance(sha, a, b)
  {
    var distance := new byte[32];
    for i := 0 to 32
      invariant forall k :: 0 <= k < i ==> distance[k] == XorBytes(a.id, b.id)[k]
    {
      var x := XorWords(a.id[i], b.id[i]);
      OneXor(a.id[i], b.id[i]);
      XorAtIndex(a.id, b.id, i);
      distance[i] := x;
    }
    assert distance[..] == XorBytes(a.id, b.id);
    d := NewKey(sha, distance[..]);
  }

  /** Distances are symmetric; a key and itself hash the zero string; and two ids are as far from a target only where
      they are one id or the hash takes two different strings to one value. */
  lemma {:induction false} DistanceLaws(sha: Sha, target: Key, a: Key, b: Key)
    ensures Distance(sha, a, b) == Distance(sha, b, a)
    ensures Distance(sha, a, a).id == sha(seq(32, _ => 0))
    ensures XorBytes(target.id, a.id) == XorBytes(target.id, b.id) <==> a.id == b.id
    ensures Distance(sha, target, a).id == Distance(sha, target, b).id <==>
            a.id == b.id || Collide(sha, XorBytes(target.id, a.id), XorBytes(target.id, b.id))
  {
    XorLaws(a.id, b.id);
    XorLaws(a.id, a.id);
    XorLaws(target.id, a.id);
    XorLaws(target.id, b.id);
  }

  predicate Collide(sha: Sha, x: seq<byte>, y: seq<byte>) {
    x != y && sha(x) == sha(y)
  }

  /** `Key::cmp`. */
  predicate Less(a: Key, b: Key) {
    LexLess(a.id, b.id)
  }

  /** The number whose order is the order of distances to `target`. */
  function Rank(sha: Sha, target: Key, key: Key): nat {
    Value(Distance(sha, target, key).id)
  }

  /** A node sorts before another by distance exactly when its rank is lower; ties are equal ids, or ids whose
      differences from the target collide. */
  lemma {:induction false} RankIsOrder(sha: Sha, target: Key, a: Key, b: Key)
    ensures Less(Distance(sha, target, a), Distance(sha, target, b)) <==> Rank(sha, target, a) < Rank(sha, target, b)
    ensures Rank(sha, target, a) == Rank(sha, target, b) <==>
            a.id == b.id || Collide(sha, XorBytes(target.id, a.id), XorBytes(target.id, b.id))
  {
    DistanceLaws(sha, target, a, b);
    LexIsNumeric(Distance(sha, target, a).id, Distance(sha, target, b).id);
  }

  /** Bit `i` of an id, most significant first. */
  predicate Bit(id: Digest, i: nat)
    requires i < 256
  {
    BitOf(id[i / 8], 7 - i % 8)
  }

  ghost predicate HasKey(nodes: seq<Node>, key: Key) {
    exists i :: 0 <= i < |nodes| && nodes[i].id == key
  }

  ghost predicate DistinctIds(nodes: seq<Node>) {
    forall i, j :: 0 <= i < j < |nodes| ==> nodes[i].id != nodes[j].id
  }

  /** Position of the first node with this key. */
  function Position(nodes: seq<Node>, key: Key): (p: Option<nat>)
    ensures p.Some? ==> p.value < |nodes| && nodes[p.value].id == key
    ensures p.None? <==> !HasKey(nodes, key)
  {
    if nodes == [] then None
    else if nodes[0].id == key then Some(0)
    else match Position(nodes[1..], key)
      case Some(p) => Some(p + 1)
      case None =>
        assert forall i :: 0 <= i < |nodes| ==> nodes[i].id != key by {
          assert forall i :: 0 < i < |nodes| ==> nodes[i] == nodes[1..][i - 1];
        }
        None
  }

  /** The nodes with another key, in their order. */
  function Without(nodes: seq<Node>, key: Key): seq<Node> {
    if nodes == [] then []
    else (if nodes[0].id == key then [] else [nodes[0]]) + Without(nodes[1..], key)
  }

  lemma {:induction false} WithoutElements(nodes: seq<Node>, key: Key)
    ensures forall n :: n in Without(nodes, key) <==> n in nodes && n.id != key
  {
    if nodes != [] {
      WithoutElements(nodes[1..], key);
      assert forall n :: n in nodes <==> n == nodes[0] || n in nodes[1..];
    }
  }

  lemma {:induction false} WithoutAbsent(nodes: seq<Node>, key: Key)
    requires !HasKey(nodes, key)
    ensures Without(nodes, key) == nodes
  {
    if nodes != [] {
      assert nodes[0].id != key;
      assert !HasKey(nodes[1..], key) by { assert forall i :: 0 <= i < |nodes[1..]| ==> nodes[1..][i] == nodes[i + 1]; }
      WithoutAbsent(nodes[1..], key);
    }
  }
}
