/** The Merkle root over piece hashes: a zero hash stands for the missing right sibling of an odd level. */
module Merkle {
  import opened Bytes

  const ZERO: Digest := [0, 0, 0, 0, 0, 0, 0, 0, 0, 0, 0, 0, 0, 0, 0, 0] +
                        [0, 0, 0, 0, 0, 0, 0, 0, 0, 0, 0, 0, 0, 0, 0, 0]

  /** Number of nodes `h` levels above `n` leaves. */
  function LevelSize(n: nat, h: nat): nat {
    if h == 0 then n else (LevelSize(n, h - 1) + 1) / 2
  }

  /** Node `k` of height `h`, defined from the top down. */
  function Tree(sha: Sha, leaves: seq<Digest>, h: nat, k: nat): Digest
    requires k < LevelSize(|leaves|, h)
    decreases h
  {
    if h == 0 then leaves[k]
    else
      var right := if 2 * k + 1 < LevelSize(|leaves|, h - 1) then Tree(sha, leaves, h - 1, 2 * k + 1) else ZERO;
      sha(Tree(sha, leaves, h - 1, 2 * k) + right)
  }

  /** `r` is the root of the tree over `leaves`: the single node of its lowest one-node level, or the
      zero hash. */
  ghost predicate IsRoot(sha: Sha, leaves: seq<Digest>, r: Digest) {
    if leaves == [] then r == ZERO
    else exists h: nat :: OneNode(|leaves|, h) && r == Tree(sha, leaves, h, 0)
  }

  /** `h` is the lowest height with a single node. */
  predicate OneNode(n: nat, h: nat) {
    LevelSize(n, h) == 1 && (h > 0 ==> LevelSize(n, h - 1) > 1)
  }

  lemma {:induction false} SmallerLevel(n: nat, h: nat, g: nat)
    requires n > 0 && g <= h
    ensures 0 < LevelSize(n, h) <= LevelSize(n, g)
  {
    if g < h {
      SmallerLevel(n, h - 1, g);
    } else if h > 0 {
      SmallerLevel(n, h - 1, h - 1);
    }
  }

  lemma {:induction false} OneHeight(n: nat, g: nat, h: nat)
    requires n > 0 && OneNode(n, g) && OneNode(n, h)
    ensures g == h
  {
    if g < h {
      SmallerLevel(n, h - 1, g);
    } else if h < g {
      SmallerLevel(n, g - 1, h);
    }
  }

  lemma {:induction false} RootIsUnique(sha: Sha, leaves: seq<Digest>, r: Digest, s: Digest)
    requires IsRoot(sha, leaves, r) && IsRoot(sha, leaves, s)
    ensures r == s
  {
    if leaves != [] {
      var g: nat :| OneNode(|leaves|, g) && r == Tree(sha, leaves, g, 0);
      var h: nat :| OneNode(|leaves|, h) && s == Tree(sha, leaves, h, 0);
      OneHeight(|leaves|, g, h);
    }
  }

  method NextLevel(sha: Sha, level: seq<Digest>) returns (next: seq<Digest>)
    ensures |next| == (|level| + 1) / 2
    ensures forall k :: 0 <= k < |next| ==>
              next[k] == sha(level[2 * k] + if 2 * k + 1 < |level| then level[2 * k + 1] else ZERO)
  {
    next := [];
    var i := 0;
    while i < |level|
      invariant 0 <= i <= |level| + 1 && i == 2 * |next|
      invariant forall k :: 0 <= k < |next| ==>
                  next[k] == sha(level[2 * k] + if 2 * k + 1 < |level| then level[2 * k + 1] else ZERO)
    {
      var right := if i + 1 < |level| then level[i + 1] else ZERO;
      next := next + [sha(level[i] + right)];
      i := i + 2;
    }
  }

  /** `MerkleTree::from_piece_hashes`: the level-by-level loop ends at the root of the tree. */
  method FromPieceHashes(sha: Sha, hashes: seq<Digest>) returns (root: Digest)
    ensures IsRoot(sha, hashes, root)
  {
    if hashes == [] {
      return ZERO;
    }
    var current := hashes;
    ghost var h := 0;
    while |current| > 1
      invariant |current| == LevelSize(|hashes|, h) > 0
      invariant h > 0 ==> LevelSize(|hashes|, h - 1) > 1
      invariant forall k :: 0 <= k < |current| ==> current[k] == Tree(sha, hashes, h, k)
      decreases |current|
    {
      current := NextLevel(sha, current);
      h := h + 1;
    }
    return current[0];
  }

  datatype LayerError = Empty | NotMultiple

  function Chunks32(bytes: seq<byte>): (r: seq<Digest>)
    requires |bytes| % 32 == 0
    ensures 32 * |r| == |bytes|
  {
    if bytes == [] then [] else [bytes[..32]] + Chunks32(bytes[32..])
  }

  lemma {:induction false} ChunksInjective(a: seq<byte>, b: seq<byte>)
    requires |a| % 32 == 0 && |b| % 32 == 0 && Chunks32(a) == Chunks32(b)
    ensures a == b
  {
    if a != [] {
      assert b != [];
      assert Chunks32(a)[1..] == Chunks32(a[32..]) && Chunks32(b)[1..] == Chunks32(b[32..]);
      ChunksInjective(a[32..], b[32..]);
      assert a[..32] == Chunks32(a)[0] == Chunks32(b)[0] == b[..32];
      assert a == a[..32] + a[32..] && b == b[..32] + b[32..];
    }
  }

  /** `MerkleTree::from_piece_layers`. */
  method FromPieceLayers(sha: Sha, bytes: seq<byte>) returns (r: Result<Digest, LayerError>)
    ensures bytes == [] ==> r == Err(Empty)
    ensures |bytes| % 32 != 0 ==> r == Err(NotMultiple)
    ensures bytes != [] && |bytes| % 32 == 0 ==> r.Ok? && IsRoot(sha, Chunks32(bytes), r.value)
  {
    if bytes == [] { return Err(Empty); }
    if |bytes| % 32 != 0 { return Err(NotMultiple); }
    var hashes: seq<Digest> := [];
    var i := 0;
    while i < |bytes|
      invariant 0 <= i <= |bytes| && i % 32 == 0
      invariant hashes + Chunks32(bytes[i..]) == Chunks32(bytes)
    {
      assert bytes[i..][..32] == bytes[i..i + 32] && bytes[i..][32..] == bytes[i + 32..];
      hashes := hashes + [bytes[i..i + 32]];
      i := i + 32;
    }
    assert bytes[i..] == [] && hashes == Chunks32(bytes);
    var root := FromPieceHashes(sha, hashes);
    return Ok(root);
  }

  ghost predicate Collision(sha: Sha, x: seq<byte>, y: seq<byte>) {
    |x| == |y| == 64 && x != y && sha(x) == sha(y)
  }

  /** Node `k` of height `h`, the zero hash if there is none. */
  function NodeOrZero(sha: Sha, leaves: seq<Digest>, h: nat, k: nat): Digest {
    if k < LevelSize(|leaves|, h) then Tree(sha, leaves, h, k) else ZERO
  }

  /** The 64 bytes hashed into node `k` of height `h + 1`. */
  function Preimage(sha: Sha, leaves: seq<Digest>, h: nat, k: nat): (s: seq<byte>)
    requires k < LevelSize(|leaves|, h + 1)
    ensures |s| == 64 && Tree(sha, leaves, h + 1, k) == sha(s)
  {
    NodeOrZero(sha, leaves, h, 2 * k) + NodeOrZero(sha, leaves, h, 2 * k + 1)
  }

  /** The number of places that height `g` of one tree and height `g + d` of the other have in common. */
  function Common(a: seq<Digest>, b: seq<Digest>, d: nat, g: nat): nat {
    Min(LevelSize(|a|, g), LevelSize(|b|, g + d))
  }

  /** At place `k` of height `g + 1` of the one and `g + d + 1` of the other, two different strings hash to one node. */
  ghost predicate NodesCollide(sha: Sha, a: seq<Digest>, b: seq<Digest>, d: nat, g: nat, k: nat) {
    k < Common(a, b, d, g + 1) && Collision(sha, Preimage(sha, a, g, k), Preimage(sha, b, g + d, k))
  }

  ghost predicate TreesCollide(sha: Sha, a: seq<Digest>, b: seq<Digest>, d: nat) {
    exists g: nat, k: nat :: NodesCollide(sha, a, b, d, g, k)
  }

  /** The two heights agree wherever both have a node. */
  ghost predicate NodesMatch(sha: Sha, a: seq<Digest>, b: seq<Digest>, d: nat, g: nat) {
    forall k: nat :: k < Common(a, b, d, g) ==> NodeOrZero(sha, a, g, k) == NodeOrZero(sha, b, g + d, k)
  }

  /** And they agree on the children of all common parents, a missing child being the zero hash. */
  ghost predicate ChildrenMatch(sha: Sha, a: seq<Digest>, b: seq<Digest>, d: nat, g: nat) {
    forall k: nat :: k < 2 * Common(a, b, d, g + 1) ==> NodeOrZero(sha, a, g, k) == NodeOrZero(sha, b, g + d, k)
  }

  lemma {:induction false} ParentsMatch(sha: Sha, a: seq<Digest>, b: seq<Digest>, d: nat, g: nat)
    requires ChildrenMatch(sha, a, b, d, g)
    ensures NodesMatch(sha, a, b, d, g + 1)
  {
    var up := g + 1;
    forall k: nat | k < Common(a, b, d, up) ensures NodeOrZero(sha, a, up, k) == NodeOrZero(sha, b, up + d, k) {
      assert NodeOrZero(sha, a, g, 2 * k) == NodeOrZero(sha, b, g + d, 2 * k);
      assert NodeOrZero(sha, a, g, 2 * k + 1) == NodeOrZero(sha, b, g + d, 2 * k + 1);
      assert Preimage(sha, a, g, k) == Preimage(sha, b, g + d, k);
    }
  }

  /** Equal nodes that do not collide have equal children. */
  lemma {:induction false} EqualChildren(sha: Sha, a: seq<Digest>, b: seq<Digest>, d: nat, g: nat, k: nat)
    requires k < Common(a, b, d, g + 1) && !NodesCollide(sha, a, b, d, g, k)
    requires Tree(sha, a, g + 1, k) == Tree(sha, b, g + d + 1, k)
    ensures NodeOrZero(sha, a, g, 2 * k) == NodeOrZero(sha, b, g + d, 2 * k)
    ensures NodeOrZero(sha, a, g, 2 * k + 1) == NodeOrZero(sha, b, g + d, 2 * k + 1)
  {
    var x, y := Preimage(sha, a, g, k), Preimage(sha, b, g + d, k);
    assert x == y;
    assert x[..32] == y[..32] && x[32..] == y[32..];
  }

  lemma {:induction false} MatchDown(sha: Sha, a: seq<Digest>, b: seq<Digest>, d: nat, g: nat)
    requires NodesMatch(sha, a, b, d, g + 1) && !TreesCollide(sha, a, b, d)
    ensures ChildrenMatch(sha, a, b, d, g) && NodesMatch(sha, a, b, d, g)
  {
    forall k: nat | k < 2 * Common(a, b, d, g + 1)
      ensures NodeOrZero(sha, a, g, k) == NodeOrZero(sha, b, g + d, k)
    {
      var p := k / 2;
      assert !NodesCollide(sha, a, b, d, g, p);
      assert NodeOrZero(sha, a, g + 1, p) == NodeOrZero(sha, b, g + 1 + d, p);
      EqualChildren(sha, a, b, d, g, p);
      assert k == 2 * p || k == 2 * p + 1;
    }
    assert Common(a, b, d, g) <= 2 * Common(a, b, d, g + 1);
  }

  /** The two trees, the one's heights `0` to `h` laid on the other's heights `d` to `d + h`, match. */
  ghost predicate TreesMatch(sha: Sha, a: seq<Digest>, b: seq<Digest>, d: nat, h: nat) {
    NodesMatch(sha, a, b, d, 0) && forall g: nat :: g < h ==> ChildrenMatch(sha, a, b, d, g)
  }

  lemma {:induction false} MatchFromTop(sha: Sha, a: seq<Digest>, b: seq<Digest>, d: nat, h: nat)
    requires NodesMatch(sha, a, b, d, h) && !TreesCollide(sha, a, b, d)
    ensures TreesMatch(sha, a, b, d, h)
  {
    if h > 0 {
      MatchDown(sha, a, b, d, h - 1);
      MatchFromTop(sha, a, b, d, h - 1);
    }
  }

  lemma {:induction false} MatchToTop(sha: Sha, a: seq<Digest>, b: seq<Digest>, d: nat, h: nat)
    requires TreesMatch(sha, a, b, d, h)
    ensures NodesMatch(sha, a, b, d, h)
  {
    if h > 0 { ParentsMatch(sha, a, b, d, h - 1); }
  }

  /** When two layers of whatever lengths, the second with the higher tree or one as high, have one root: exactly when
      their trees match, level by level from the top, a node that one of them lacks beside a common parent being the
      zero hash in the other; or else SHA-256 collides on two strings hashed at one place of the two. */
  lemma {:induction false} SameRootIff(sha: Sha, a: seq<Digest>, b: seq<Digest>, d: nat, h: nat, r: Digest, s: Digest)
    requires a != [] && b != [] && OneNode(|a|, h) && OneNode(|b|, h + d) && IsRoot(sha, a, r) && IsRoot(sha, b, s)
    ensures TreesMatch(sha, a, b, d, h) ==> r == s
    ensures r == s ==> TreesMatch(sha, a, b, d, h) || TreesCollide(sha, a, b, d)
  {
    RootAt(sha, a, h, r);
    RootAt(sha, b, h + d, s);
    if TreesMatch(sha, a, b, d, h) {
      MatchToTop(sha, a, b, d, h);
      assert NodeOrZero(sha, a, h, 0) == NodeOrZero(sha, b, h + d, 0);
    } else if r == s && !TreesCollide(sha, a, b, d) {
      MatchFromTop(sha, a, b, d, h);
    }
  }

  lemma {:induction false} RootAt(sha: Sha, leaves: seq<Digest>, h: nat, r: Digest)
    requires leaves != [] && OneNode(|leaves|, h) && IsRoot(sha, leaves, r)
    ensures r == Tree(sha, leaves, h, 0)
  {
    var g: nat :| OneNode(|leaves|, g) && r == Tree(sha, leaves, g, 0);
    OneHeight(|leaves|, g, h);
  }

  /** The root binds the layer: equal roots over layers of one length mean equal layers, or that SHA-256 collides on two
      strings hashed at one and the same place of the two trees. */
  lemma {:induction false} RootBindsLayer(sha: Sha, a: seq<Digest>, b: seq<Digest>, r: Digest)
    requires |a| == |b| && IsRoot(sha, a, r) && IsRoot(sha, b, r)
    ensures a == b || TreesCollide(sha, a, b, 0)
  {
    if a != [] {
      var h: nat :| OneNode(|a|, h) && r == Tree(sha, a, h, 0);
      SameRootIff(sha, a, b, 0, h, r, r);
      if !TreesCollide(sha, a, b, 0) {
        forall i | 0 <= i < |a| ensures a[i] == b[i] {
          assert NodeOrZero(sha, a, 0, i) == NodeOrZero(sha, b, 0, i);
        }
      }
    }
  }

  lemma {:induction false} RootBindsLayerBytes(sha: Sha, a: seq<byte>, b: seq<byte>, r: Digest)
    requires |a| == |b| && |a| % 32 == 0 && IsRoot(sha, Chunks32(a), r) && IsRoot(sha, Chunks32(b), r)
    ensures a == b || TreesCollide(sha, Chunks32(a), Chunks32(b), 0)
  {
    var x, y := Chunks32(a), Chunks32(b);
    RootBindsLayer(sha, x, y, r);
    if x == y { ChunksInjective(a, b); }
  }

  /** So the length matters. On every odd layer of at least three hashes, appending a zero hash keeps the root. */
  lemma {:induction false} ZeroPaddingKeepsRoot(sha: Sha, a: seq<Digest>, r: Digest)
    requires |a| % 2 == 1 && |a| > 1 && IsRoot(sha, a, r)
    ensures IsRoot(sha, a + [ZERO], r)
  {
    var b := a + [ZERO];
    var h: nat :| OneNode(|a|, h) && r == Tree(sha, a, h, 0);
    assert h > 0;
    PaddedTree(sha, a, h, 0);
    assert OneNode(|b|, h) by {
      if h > 1 { PaddedTree(sha, a, h - 1, 0); }
    }
  }

  lemma {:induction false} PaddedTree(sha: Sha, a: seq<Digest>, h: nat, k: nat)
    requires |a| % 2 == 1 && h > 0
    ensures LevelSize(|a| + 1, h) == LevelSize(|a|, h)
    ensures k < LevelSize(|a|, h) ==> Tree(sha, a + [ZERO], h, k) == Tree(sha, a, h, k)
  {
    if h == 1 {
      if k < LevelSize(|a|, 1) {
        assert Tree(sha, a + [ZERO], 0, 2 * k) == Tree(sha, a, 0, 2 * k);
      }
    } else {
      PaddedTree(sha, a, h - 1, 2 * k);
      PaddedTree(sha, a, h - 1, 2 * k + 1);
    }
  }

  /** The layer of the nodes one level up. */
  function Parents(sha: Sha, leaves: seq<Digest>): (r: seq<Digest>)
    ensures |r| == LevelSize(|leaves|, 1)
  {
    seq(LevelSize(|leaves|, 1), k requires 0 <= k < LevelSize(|leaves|, 1) => Tree(sha, leaves, 1, k))
  }

  lemma {:induction false} ParentsSize(sha: Sha, leaves: seq<Digest>, h: nat)
    ensures LevelSize(|Parents(sha, leaves)|, h) == LevelSize(|leaves|, h + 1)
  {
    if h > 0 { ParentsSize(sha, leaves, h - 1); }
  }

  lemma {:induction false} ParentsTree(sha: Sha, leaves: seq<Digest>, h: nat, k: nat)
    requires k < LevelSize(|leaves|, h + 1) && k < LevelSize(|Parents(sha, leaves)|, h)
    ensures Tree(sha, Parents(sha, leaves), h, k) == Tree(sha, leaves, h + 1, k)
    decreases h
  {
    var up := Parents(sha, leaves);
    if h == 0 {
      assert up[k] == Tree(sha, leaves, 1, k);
    } else {
      var g := h - 1;
      ParentsSize(sha, leaves, g);
      ParentsTree(sha, leaves, g, 2 * k);
      if 2 * k + 1 < LevelSize(|up|, g) { ParentsTree(sha, leaves, g, 2 * k + 1); }
      assert NodeOrZero(sha, up, g, 2 * k) == NodeOrZero(sha, leaves, h, 2 * k);
      assert NodeOrZero(sha, up, g, 2 * k + 1) == NodeOrZero(sha, leaves, h, 2 * k + 1);
      assert Preimage(sha, up, g, k) == Preimage(sha, leaves, h, k);
    }
  }

  /** And every layer of at least two hashes has the root of the layer above it. */
  lemma {:induction false} LayerAboveKeepsRoot(sha: Sha, leaves: seq<Digest>, r: Digest)
    requires |leaves| > 1 && IsRoot(sha, leaves, r)
    ensures IsRoot(sha, Parents(sha, leaves), r)
  {
    var h: nat :| OneNode(|leaves|, h) && r == Tree(sha, leaves, h, 0);
    assert h > 0;
    var up, g := Parents(sha, leaves), h - 1;
    ParentsSize(sha, leaves, g);
    if g > 0 { ParentsSize(sha, leaves, g - 1); }
    ParentsTree(sha, leaves, g, 0);
    SmallerLevel(|leaves|, 1, 1);
    assert |up| > 0;
    HasRoot(sha, up, g, r);
  }

  lemma {:induction false} HasRoot(sha: Sha, leaves: seq<Digest>, h: nat, r: Digest)
    requires |leaves| > 0 && OneNode(|leaves|, h) && r == Tree(sha, leaves, h, 0)
    ensures IsRoot(sha, leaves, r)
  {
  }
}
