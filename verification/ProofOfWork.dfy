/** Proof of work: the leading-zero-bits test of the client and of the enclave, and the prover. */
module ProofOfWork {
  import opened Bytes

  /** What the byte-and-mask scans decide: the hash, read as a big-endian integer, is below 2^(256-d). */
  predicate Meets(hash: Digest, difficulty: nat)
    requires difficulty <= 256
  {
    Value(hash) < Pow2(256 - difficulty)
  }

  lemma {:induction false} ZeroPrefix(s: seq<byte>, k: nat)
    requires k <= |s| && forall i :: 0 <= i < k ==> s[i] == 0
    ensures Value(s) == Value(s[k..])
  {
    if k == 0 {
      assert s[0..] == s;
    } else {
      ZeroPrefix(s[1..], k - 1);
      assert s[1..][k - 1..] == s[k..];
    }
  }

  lemma {:induction false} NonzeroLead(s: seq<byte>)
    requires s != [] && s[0] != 0
    ensures Value(s) >= Pow2(8 * (|s| - 1))
  {
    LeadingDigit(s[0] as nat, 1, Pow2(8 * (|s| - 1)), 0);
  }

  /** A nonzero byte among the first d/8 puts the hash at or above the target. */
  lemma {:induction false} NonzeroByteFails(hash: Digest, difficulty: nat, i: nat)
    requires difficulty <= 256 && i < difficulty / 8
    requires hash[i] != 0 && forall j :: 0 <= j < i ==> hash[j] == 0
    ensures !Meets(hash, difficulty)
  {
    ZeroPrefix(hash, i);
    NonzeroLead(hash[i..]);
    Pow2Monotone(256 - difficulty, 8 * (31 - i));
  }

  /** A hash is below `q` units of its leading byte exactly when that byte is below `q`. */
  lemma {:induction false} LeadDecides(s: seq<byte>, q: nat)
    requires s != []
    ensures Value(s) < q * Pow2(8 * (|s| - 1)) <==> (s[0] as nat) < q
  {
    ValueBound(s[1..]);
    LeadingDigit(s[0] as nat, q, Pow2(8 * (|s| - 1)), Value(s[1..]));
  }

  /** With the first d/8 bytes zero, the next byte decides by its size. */
  lemma {:induction false} NextByteDecides(hash: Digest, difficulty: nat)
    requires difficulty <= 256 && forall j :: 0 <= j < difficulty / 8 ==> hash[j] == 0
    ensures difficulty % 8 == 0 ==> Meets(hash, difficulty)
    ensures difficulty % 8 != 0 ==>
              (Meets(hash, difficulty) <==> (hash[difficulty / 8] as nat) < Pow2(8 - difficulty % 8))
  {
    var f, r := difficulty / 8, difficulty % 8;
    ZeroPrefix(hash, f);
    ValueBound(hash[f..]);
    if r != 0 {
      Pow2Add(8 - r, 8 * (31 - f));
      LeadDecides(hash[f..], Pow2(8 - r));
    }
  }

  /** And so by its masked remainder. */
  lemma {:induction false} MaskDecides(hash: Digest, difficulty: nat)
    requires difficulty <= 256 && forall j :: 0 <= j < difficulty / 8 ==> hash[j] == 0
    ensures difficulty % 8 == 0 ==> Meets(hash, difficulty)
    ensures difficulty % 8 != 0 ==>
              (Meets(hash, difficulty) <==>
                 Word(hash[difficulty / 8]) & ((0xFF as bv8) << (8 - difficulty % 8)) == 0)
  {
    NextByteDecides(hash, difficulty);
    if difficulty % 8 != 0 { MaskIsBound(hash[difficulty / 8], difficulty % 8); }
  }

  /** A byte with its `r` top bits set, and the bytes that have none of them. */
  function TopBits(r: nat): bv8
    requires 1 <= r <= 7
  {
    if r == 1 then 0x80 else if r == 2 then 0xC0 else if r == 3 then 0xE0 else if r == 4 then 0xF0
    else if r == 5 then 0xF8 else if r == 6 then 0xFC else 0xFE
  }

  function TopBound(r: nat): nat
    requires 1 <= r <= 7
  {
    if r == 1 then 128 else if r == 2 then 64 else if r == 3 then 32 else if r == 4 then 16
    else if r == 5 then 8 else if r == 6 then 4 else 2
  }

  lemma {:induction false} TopBoundIsPow2(r: nat)
    requires 1 <= r <= 7
    ensures Pow2(8 - r) == TopBound(r)
  {
    assert Pow2(1) == 2 && Pow2(2) == 4 && Pow2(3) == 8;
    assert Pow2(4) == 16 && Pow2(5) == 32 && Pow2(6) == 64 && Pow2(7) == 128;
  }

  lemma {:induction false} ShiftIsTopBits(r: nat)
    requires 1 <= r <= 7
    ensures (0xFF as bv8) << (8 - r) == TopBits(r)
  {
  }

  /** None of the `r` top bits is set. */
  predicate TopClear(b: byte, r: nat)
    requires 1 <= r <= 7
  {
    && !BitOf(b, 7) && (r >= 2 ==> !BitOf(b, 6)) && (r >= 3 ==> !BitOf(b, 5)) && (r >= 4 ==> !BitOf(b, 4))
    && (r >= 5 ==> !BitOf(b, 3)) && (r >= 6 ==> !BitOf(b, 2)) && (r >= 7 ==> !BitOf(b, 1))
  }

  lemma {:induction false} TopBitsClear(b: byte, r: nat)
    requires 1 <= r <= 7
    ensures Word(b) & TopBits(r) == 0 <==> TopClear(b, r)
  {
  }

  lemma {:induction false} TopBitsBound(b: byte, r: nat)
    requires 1 <= r <= 7
    ensures TopClear(b, r) <==> (b as nat) < TopBound(r)
  {
  }

  lemma {:induction false} MaskIsBound(b: byte, r: nat)
    requires 1 <= r <= 7
    ensures Word(b) & ((0xFF as bv8) << (8 - r)) == 0 <==> (b as nat) < Pow2(8 - r)
  {
    ShiftIsTopBits(r);
    TopBitsClear(b, r);
    TopBitsBound(b, r);
    TopBoundIsPow2(r);
  }

  /** `PoW::validate`. */
  method Validate(hash: Digest, difficulty: nat) returns (ok: bool)
    requires difficulty <= 256
    ensures ok <==> Meets(hash, difficulty)
  {
    var fullBytes, remainingBits := difficulty / 8, difficulty % 8;
    for i := 0 to fullBytes
      invariant forall j :: 0 <= j < i ==> hash[j] == 0
    {
      if hash[i] != 0 {
        NonzeroByteFails(hash, difficulty, i);
        return false;
      }
    }
    MaskDecides(hash, difficulty);
    if remainingBits > 0 {
      var mask := (0xFF as bv8) << (8 - remainingBits);
      if Word(hash[fullBytes]) & mask != 0 {
        return false;
      }
    }
    return true;
  }

  /** `meets_difficulty` of the enclave: its mask is computed in `int` and cut to a byte. */
  method MeetsDifficulty(hash: Digest, difficulty: nat) returns (ok: bool)
    requires difficulty <= 256
    ensures ok <==> Meets(hash, difficulty)
  {
    var fullBytes, remainingBits := difficulty / 8, difficulty % 8;
    var i := 0;
    while i < fullBytes
      invariant 0 <= i <= fullBytes
      invariant forall j :: 0 <= j < i ==> hash[j] == 0
    {
      if hash[i] != 0 {
        NonzeroByteFails(hash, difficulty, i);
        return false;
      }
      i := i + 1;
    }
    MaskDecides(hash, difficulty);
    if remainingBits > 0 {
      var mask := (((0xFF as bv32) << (8 - remainingBits)) & 0xFF) as bv8;
      NarrowedMask(remainingBits);
      if Word(hash[fullBytes]) & mask != 0 {
        return false;
      }
    }
    return true;
  }

  lemma {:induction false} NarrowedMask(r: nat)
    requires 1 <= r <= 7
    ensures (((0xFF as bv32) << (8 - r)) & 0xFF) as bv8 == (0xFF as bv8) << (8 - r)
  {
    match r
    case 1 => assert (0xFF as bv8) << 7 == 0x80; assert (0xFF as bv32) << 7 == 0x7F80;
    case 2 => assert (0xFF as bv8) << 6 == 0xC0; assert (0xFF as bv32) << 6 == 0x3FC0;
    case 3 => assert (0xFF as bv8) << 5 == 0xE0; assert (0xFF as bv32) << 5 == 0x1FE0;
    case 4 => assert (0xFF as bv8) << 4 == 0xF0; assert (0xFF as bv32) << 4 == 0xFF0;
    case 5 => assert (0xFF as bv8) << 3 == 0xF8; assert (0xFF as bv32) << 3 == 0x7F8;
    case 6 => assert (0xFF as bv8) << 2 == 0xFC; assert (0xFF as bv32) << 2 == 0x3FC;
    case 7 => assert (0xFF as bv8) << 1 == 0xFE; assert (0xFF as bv32) << 1 == 0x1FE;
  }

  /** The string a proof hashes. */
  function Preimage(pubKey: seq<byte>, challenge: nat, nonce: nat): seq<byte>
    requires challenge < U32 && nonce < U32
  {
    pubKey + Be32(challenge) + Be32(nonce)
  }

  /** It is the key, then the challenge, then the nonce, each of the two in four big-endian bytes; so under keys of one
      length a string serves one key, challenge and nonce only. */
  lemma {:induction false} PreimageLayout(pubKey: seq<byte>, challenge: nat, nonce: nat)
    requires challenge < U32 && nonce < U32
    ensures var s, k := Preimage(pubKey, challenge, nonce), |pubKey|;
            && |s| == k + 8 && s[..k] == pubKey
            && Value(s[k..k + 4]) == challenge && Value(s[k + 4..]) == nonce
  {
    var s, k := Preimage(pubKey, challenge, nonce), |pubKey|;
    assert s[k..k + 4] == Be32(challenge) && s[k + 4..] == Be32(nonce);
    Be32RoundTrip(challenge);
    Be32RoundTrip(nonce);
  }

  /** `PoW::calculate`. */
  function Calculate(sha: Sha, pubKey: seq<byte>, challenge: nat, nonce: nat): Digest
    requires challenge < U32 && nonce < U32
  {
    sha(Preimage(pubKey, challenge, nonce))
  }

  predicate Solves(sha: Sha, pubKey: seq<byte>, challenge: nat, difficulty: nat, nonce: nat)
    requires challenge < U32 && difficulty <= 256 && nonce < U32
  {
    Meets(Calculate(sha, pubKey, challenge, nonce), difficulty)
  }

  /** `nonce` is the smallest solution: there is at most one such number. */
  ghost predicate FirstSolution(sha: Sha, pubKey: seq<byte>, challenge: nat, difficulty: nat, nonce: nat)
    requires challenge < U32 && difficulty <= 256
  {
    && nonce < U32
    && Solves(sha, pubKey, challenge, difficulty, nonce)
    && forall j: nat :: j < nonce ==> !Solves(sha, pubKey, challenge, difficulty, j)
  }

  datatype PoW = PoW(value: Digest, challenge: nat, nonce: nat, signature: Option<seq<byte>>, difficulty: nat)

  type Check = (seq<byte>, seq<byte>, seq<byte>) -> bool

  /** What a verifier holding `pubKey` accepts. */
  predicate Accepted(sha: Sha, check: Check, pow: PoW, pubKey: seq<byte>)
    requires pow.challenge < U32 && pow.nonce < U32 && pow.difficulty <= 256
  {
    && pow.signature.Some?
    && pow.value == Calculate(sha, pubKey, pow.challenge, pow.nonce)
    && Meets(pow.value, pow.difficulty)
    && check(pubKey, pow.value, pow.signature.value)
  }

  /** A proof is for one key: accepted under two of one length, it shows two strings with one hash. */
  lemma {:induction false} ProofBindsKey(sha: Sha, check: Check, pow: PoW, a: seq<byte>, b: seq<byte>)
    requires pow.challenge < U32 && pow.nonce < U32 && pow.difficulty <= 256
    requires Accepted(sha, check, pow, a) && Accepted(sha, check, pow, b) && |a| == |b| && a != b
    ensures var x, y := Preimage(a, pow.challenge, pow.nonce), Preimage(b, pow.challenge, pow.nonce);
            x != y && sha(x) == sha(y) == pow.value
  {
    PreimageLayout(a, pow.challenge, pow.nonce);
    PreimageLayout(b, pow.challenge, pow.nonce);
  }

  /** `PoW::verify`. */
  method Verify(sha: Sha, check: Check, pow: PoW, pubKey: seq<byte>) returns (ok: bool)
    requires pow.challenge < U32 && pow.nonce < U32 && pow.difficulty <= 256
    ensures ok <==> Accepted(sha, check, pow, pubKey)
    ensures ok <==> && pow.signature.Some? && check(pubKey, pow.value, pow.signature.value)
                    && pow.value == sha(Preimage(pubKey, pow.challenge, pow.nonce))
                    && Value(pow.value) < Pow2(256 - pow.difficulty)
  {
    if pow.signature.None? {
      return false;
    }
    var expected := Calculate(sha, pubKey, pow.challenge, pow.nonce);
    if expected != pow.value {
      return false;
    }
    var enough := Validate(expected, pow.difficulty);
    if !enough {
      return false;
    }
    return check(pubKey, pow.value, pow.signature.value);
  }

  /** The nonce of iteration `k` of the search: `wrapping_add` from zero. */
  function NonceAt(k: nat): (n: nat)
    ensures n < U32
  {
    if k == 0 then 0 else (NonceAt(k - 1) + 1) % U32
  }

  lemma {:induction false} NonceBeforeWrap(k: nat)
    requires k < U32
    ensures NonceAt(k) == k
  {
    if k > 0 { NonceBeforeWrap(k - 1); }
  }

  /** The search comes to an end, at whatever iteration, if and only if some 32-bit nonce solves the challenge. */
  lemma {:induction false} SearchEndsIff(sha: Sha, pubKey: seq<byte>, challenge: nat, difficulty: nat)
    requires challenge < U32 && difficulty <= 256
    ensures (exists k: nat :: Solves(sha, pubKey, challenge, difficulty, NonceAt(k))) <==>
            exists n: nat :: n < U32 && Solves(sha, pubKey, challenge, difficulty, n)
  {
    if n: nat :| n < U32 && Solves(sha, pubKey, challenge, difficulty, n) {
      NonceBeforeWrap(n);
      assert Solves(sha, pubKey, challenge, difficulty, NonceAt(n));
    }
  }

  /** `SoftwareProver::prove`. The search runs forever when no 32-bit nonce solves the challenge; otherwise it ends at
      the first solution before the counter wraps, and every proof it returns is accepted under the signer's own key. */
  method Prove(sha: Sha, sign: seq<byte> -> Option<seq<byte>>, ghost check: Check,
               pubKey: seq<byte>, challenge: nat, difficulty: nat, ghost solution: nat)
    returns (r: Option<PoW>)
    requires challenge < U32 && difficulty <= 256 && solution < U32
    requires Solves(sha, pubKey, challenge, difficulty, solution)
    requires forall m, s :: sign(m) == Some(s) ==> check(pubKey, m, s)
    ensures r.Some? ==>
              && r.value.challenge == challenge && r.value.difficulty == difficulty
              && FirstSolution(sha, pubKey, challenge, difficulty, r.value.nonce)
              && Accepted(sha, check, r.value, pubKey)
    ensures r.None? ==> exists n: nat :: FirstSolution(sha, pubKey, challenge, difficulty, n)
                                         && sign(Calculate(sha, pubKey, challenge, n)) == None
  {
    var nonce := 0;
    while true
      invariant 0 <= nonce <= solution
      invariant forall j: nat :: j < nonce ==> !Solves(sha, pubKey, challenge, difficulty, j)
      decreases solution - nonce
    {
      var hash := Calculate(sha, pubKey, challenge, nonce);
      var found := Validate(hash, difficulty);
      if found {
        assert FirstSolution(sha, pubKey, challenge, difficulty, nonce);
        var signature := sign(hash);
        if signature.None? {
          return None;
        }
        return Some(PoW(hash, challenge, nonce, signature, difficulty));
      }
      nonce := (nonce + 1) % U32;
    }
  }

  function Reversed4(s: seq<byte>): (r: seq<byte>)
    requires |s| == 4
    ensures |r| == 4
  {
    [s[3], s[2], s[1], s[0]]
  }

  /** `__builtin_bswap32`, and the bytes a little-endian machine keeps a word in. */
  function Bswap32(n: nat): (r: nat)
    requires n < U32
    ensures r < U32
  {
    Be32OfValue(Reversed4(Be32(n)));
    Value(Reversed4(Be32(n)))
  }

  function LittleEndianMemory(n: nat): seq<byte>
    requires n < U32
  {
    Reversed4(Be32(n))
  }

  /** The swapped word lies in memory as the big-endian bytes of the original, so both sides hash the same string. */
  lemma {:induction false} SwappedWordIsBigEndian(n: nat)
    requires n < U32
    ensures LittleEndianMemory(Bswap32(n)) == Be32(n)
  {
    Be32OfValue(Reversed4(Be32(n)));
  }

  /** `pow_ctx_t` of the enclave. */
  class PowContext {
    var hash: Digest
    var nonce: nat
    const challenge: nat
    const difficulty: nat

    constructor (challenge: nat, difficulty: nat)
      ensures this.challenge == challenge && this.difficulty == difficulty
    {
      this.challenge, this.difficulty := challenge, difficulty;
      hash, nonce := seq(32, _ => 0), 0;
    }

    /** `pow_calculate`: the enclave stops at the same nonce with the same hash as the software prover. */
    method PowCalculate(sha: Sha, pubKey: seq<byte>, ghost solution: nat)
      requires challenge < U32 && difficulty <= 256 && solution < U32
      requires Solves(sha, pubKey, challenge, difficulty, solution)
      modifies this
      ensures FirstSolution(sha, pubKey, challenge, difficulty, nonce)
      ensures hash == Calculate(sha, pubKey, challenge, nonce)
    {
      var n := 0;
      while true
        invariant 0 <= n <= solution
        invariant forall j: nat :: j < n ==> !Solves(sha, pubKey, challenge, difficulty, j)
        decreases solution - n
      {
        var h := HashSwapped(sha, pubKey, challenge, n);
        var found := MeetsDifficulty(h, difficulty);
        if found {
          nonce, hash := n, h;
          return;
        }
        n := (n + 1) % U32;
      }
    }
  }

  /** The enclave feeds the hash with the memory of byte-swapped words. */
  method HashSwapped(sha: Sha, pubKey: seq<byte>, challenge: nat, nonce: nat) returns (h: Digest)
    requires challenge < U32 && nonce < U32
    ensures h == Calculate(sha, pubKey, challenge, nonce)
  {
    var challengeBe, nonceBe := Bswap32(challenge), Bswap32(nonce);
    SwappedWordIsBigEndian(challenge);
    SwappedWordIsBigEndian(nonce);
    h := sha(pubKey + LittleEndianMemory(challengeBe) + LittleEndianMemory(nonceBe));
  }
}
