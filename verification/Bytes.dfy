/** Byte strings: big-endian values, the lexicographic order on arrays, and 32-bit words on the wire. */
module Bytes {
  newtype byte = x: int | 0 <= x < 0x100

  /** A 32-byte hash. */
  type Digest = s: seq<byte> | |s| == 32 witness seq(32, _ => 0)

  /** SHA-256, as an arbitrary function. */
  type Sha = seq<byte> -> Digest

  datatype Option<+T> = None | Some(value: T)

  datatype Result<+T, +E> = Ok(value: T) | Err(error: E)

  const U32: nat := 0x1_0000_0000

  function Min(a: int, b: int): int { if a < b then a else b }

  function Max(a: int, b: int): int { if a < b then b else a }

  function Front<T>(s: seq<T>): seq<T> requires s != [] { s[..|s| - 1] }

  function Last<T>(s: seq<T>): T requires s != [] { s[|s| - 1] }

  function Pow2(n: nat): (p: nat)
    ensures p > 0
  {
    if n == 0 then 1 else 2 * Pow2(n - 1)
  }

  lemma {:induction false} Pow2Add(m: nat, n: nat)
    ensures Pow2(m + n) == Pow2(m) * Pow2(n)
  {
    if m != 0 {
      Pow2Add(m - 1, n);
      assert Pow2(m + n) == 2 * (Pow2(m - 1) * Pow2(n)) == (2 * Pow2(m - 1)) * Pow2(n);
    }
  }

  lemma {:induction false} Pow2Monotone(m: nat, n: nat)
    requires m <= n
    ensures Pow2(m) <= Pow2(n)
  {
    if m < n { Pow2Monotone(m, n - 1); }
  }

  /** The unsigned integer a byte string spells in big-endian order. */
  function Value(s: seq<byte>): nat {
    if s == [] then 0 else s[0] as nat * Pow2(8 * (|s| - 1)) + Value(s[1..])
  }

  lemma {:induction false} ValueBound(s: seq<byte>)
    ensures Value(s) < Pow2(8 * |s|)
  {
    if s != [] {
      ValueBound(s[1..]);
      var p := Pow2(8 * (|s| - 1));
      Pow2Add(8, 8 * (|s| - 1));
      assert Pow2(8) == 256;
      LeadingDigit(s[0] as nat, 256, p, Value(s[1..]));
    }
  }

  lemma {:induction false} TimesMonotone(a: nat, b: nat, p: nat)
    requires a <= b
    ensures a * p <= b * p
  {
    assert b * p == a * p + (b - a) * p;
  }

  /** `b * p + rest` is below `q * p` exactly when the leading digit `b` is below `q`. */
  lemma {:induction false} LeadingDigit(b: nat, q: nat, p: nat, rest: nat)
    requires rest < p
    ensures b * p + rest < q * p <==> b < q
  {
    if b < q {
      TimesMonotone(b + 1, q, p);
      assert (b + 1) * p == b * p + p;
    } else {
      TimesMonotone(q, b, p);
    }
  }

  /** Rust's order on byte arrays of one length. */
  predicate LexLess(a: seq<byte>, b: seq<byte>)
    requires |a| == |b|
  {
    a != [] && (a[0] < b[0] || (a[0] == b[0] && LexLess(a[1..], b[1..])))
  }

  /** The order on byte arrays is the order on the numbers they spell, so it is total and its ties are equalities. */
  lemma {:induction false} LexIsNumeric(a: seq<byte>, b: seq<byte>)
    requires |a| == |b|
    ensures LexLess(a, b) <==> Value(a) < Value(b)
    ensures Value(a) == Value(b) <==> a == b
  {
    if a != [] {
      var p := Pow2(8 * (|a| - 1));
      LexIsNumeric(a[1..], b[1..]);
      ValueBound(a[1..]);
      ValueBound(b[1..]);
      assert a == b <==> a[0] == b[0] && a[1..] == b[1..] by {
        if a[0] == b[0] && a[1..] == b[1..] {
          assert a == [a[0]] + a[1..] == b;
        }
      }
      DigitOrder(a[0] as nat, Value(a[1..]), b[0] as nat, Value(b[1..]), p);
    }
  }

  lemma {:induction false} DigitOrder(a: nat, x: nat, b: nat, y: nat, p: nat)
    requires x < p && y < p
    ensures a * p + x < b * p + y <==> a < b || (a == b && x < y)
    ensures a * p + x == b * p + y <==> a == b && x == y
  {
    if a < b {
      TimesMonotone(a + 1, b, p);
      assert (a + 1) * p == a * p + p;
    } else if b < a {
      TimesMonotone(b + 1, a, p);
      assert (b + 1) * p == b * p + p;
    }
  }

  /** The `width` low-order bytes of `n`, most significant first. */
  function Encode(n: nat, width: nat): (s: seq<byte>)
    ensures |s| == width
    decreases n, width
  {
    if width == 0 then [] else Encode(n / 0x100, width - 1) + [(n % 0x100) as byte]
  }

  lemma {:induction false} ValueOfLast(s: seq<byte>, b: byte)
    ensures Value(s + [b]) == Value(s) * 0x100 + b as nat
  {
    if s == [] {
      assert [b][1..] == [] && s + [b] == [b];
      assert Value([b]) == b as nat * Pow2(0) + Value([]);
    } else {
      assert (s + [b])[1..] == s[1..] + [b];
      ValueOfLast(s[1..], b);
      var p := Pow2(8 * (|s| - 1));
      Pow2Add(8, 8 * (|s| - 1));
      assert Pow2(8) == 0x100;
      assert s[0] as nat * (0x100 * p) == s[0] as nat * p * 0x100;
    }
  }

  lemma {:induction false} ValueOfEncode(n: nat, width: nat)
    requires n < Pow2(8 * width)
    ensures Value(Encode(n, width)) == n
  {
    if width > 0 {
      Pow2Add(8, 8 * (width - 1));
      assert Pow2(8) == 0x100;
      ValueOfEncode(n / 0x100, width - 1);
      ValueOfLast(Encode(n / 0x100, width - 1), (n % 0x100) as byte);
    }
  }

  lemma {:induction false} U32IsPow2()
    ensures Pow2(32) == U32
  {
    assert Pow2(8) == 0x100;
    Pow2Add(8, 8);
    Pow2Add(16, 16);
  }

  /** `u32::to_be_bytes`. */
  function Be32(n: nat): (s: seq<byte>)
    requires n < U32
    ensures |s| == 4
  {
    Encode(n, 4)
  }

  /** Encoding and decoding a 32-bit word are inverse to each other. */
  lemma {:induction false} Be32RoundTrip(n: nat)
    requires n < U32
    ensures Value(Be32(n)) == n
  {
    U32IsPow2();
    ValueOfEncode(n, 4);
  }

  lemma {:induction false} Be32OfValue(s: seq<byte>)
    requires |s| == 4
    ensures Value(s) < U32 && Be32(Value(s)) == s
  {
    U32IsPow2();
    ValueBound(s);
    Be32RoundTrip(Value(s));
    LexIsNumeric(Be32(Value(s)), s);
  }

  /** Bit `j` of a byte, counted from the least significant. */
  predicate BitOf(b: byte, j: nat)
    requires j < 8
  {
    var n := b as nat;
    if j == 0 then n % 2 == 1 else if j == 1 then n / 2 % 2 == 1 else if j == 2 then n / 4 % 2 == 1
    else if j == 3 then n / 8 % 2 == 1 else if j == 4 then n / 16 % 2 == 1 else if j == 5 then n / 32 % 2 == 1
    else if j == 6 then n / 64 % 2 == 1 else n / 128 % 2 == 1
  }

  /** A byte as an 8-bit machine word. */
  function Word(b: byte): bv8 {
    Pick(BitOf(b, 7), 0x80) | Pick(BitOf(b, 6), 0x40) | Pick(BitOf(b, 5), 0x20) | Pick(BitOf(b, 4), 0x10) |
    Pick(BitOf(b, 3), 0x08) | Pick(BitOf(b, 2), 0x04) | Pick(BitOf(b, 1), 0x02) | Pick(BitOf(b, 0), 0x01)
  }

  function Pick(set_: bool, mask: bv8): bv8 {
    if set_ then mask else 0
  }

  /** `(word >> j) & 1`. */
  method ReadBit(b: byte, j: nat) returns (r: bool)
    requires j < 8
    ensures r == BitOf(b, j)
  {
    r := (Word(b) >> j) & 1 != 0;
  }
}
