/** Exclusive or of bytes, as a machine computes it, told bit by bit. */
module Xor {
  import opened Bytes

  newtype bit = x: int | 0 <= x < 2

  /** Eight binary digits, most significant first. */
  function Digits(b7: bit, b6: bit, b5: bit, b4: bit, b3: bit, b2: bit, b1: bit, b0: bit): byte {
    (128 * b7 as int + 64 * b6 as int + 32 * b5 as int + 16 * b4 as int +
     8 * b3 as int + 4 * b2 as int + 2 * b1 as int + b0 as int) as byte
  }

  function Digit(w: bv8): bit {
    if w != 0 then 1 else 0
  }

  /** The byte of a machine word. */
  function Unword(w: bv8): byte {
    Digits(Digit(w & 0x80), Digit(w & 0x40), Digit(w & 0x20), Digit(w & 0x10),
           Digit(w & 0x08), Digit(w & 0x04), Digit(w & 0x02), Digit(w & 0x01))
  }

  lemma {:induction false} DigitsHigh(b7: bit, b6: bit, b5: bit, b4: bit, b3: bit, b2: bit, b1: bit, b0: bit)
    ensures var b := Digits(b7, b6, b5, b4, b3, b2, b1, b0);
            && (BitOf(b, 7) <==> b7 == 1) && (BitOf(b, 6) <==> b6 == 1)
            && (BitOf(b, 5) <==> b5 == 1) && (BitOf(b, 4) <==> b4 == 1)
  {
    var n := Digits(b7, b6, b5, b4, b3, b2, b1, b0) as int;
    assert n / 16 == 8 * b7 as int + 4 * b6 as int + 2 * b5 as int + b4 as int;
    assert n / 32 == 4 * b7 as int + 2 * b6 as int + b5 as int;
    assert n / 64 == 2 * b7 as int + b6 as int;
    assert n / 128 == b7 as int;
  }

  lemma {:induction false} DigitsLow(b7: bit, b6: bit, b5: bit, b4: bit, b3: bit, b2: bit, b1: bit, b0: bit)
    ensures var b := Digits(b7, b6, b5, b4, b3, b2, b1, b0);
            && (BitOf(b, 3) <==> b3 == 1) && (BitOf(b, 2) <==> b2 == 1)
            && (BitOf(b, 1) <==> b1 == 1) && (BitOf(b, 0) <==> b0 == 1)
  {
    var n := Digits(b7, b6, b5, b4, b3, b2, b1, b0) as int;
    var high := 8 * b7 as int + 4 * b6 as int + 2 * b5 as int + b4 as int;
    assert n / 2 == 8 * high + 4 * b3 as int + 2 * b2 as int + b1 as int;
    assert n / 4 == 4 * high + 2 * b3 as int + b2 as int;
    assert n / 8 == 2 * high + b3 as int;
  }

  lemma {:induction false} Halve(n: nat) returns (q: nat, r: nat)
    ensures q == n / 2 && r == n % 2 && n == 2 * q + r && r <= 1
  {
    q, r := n / 2, n % 2;
  }

  lemma {:induction false} HalveTwice(n: nat)
    ensures n / 2 / 2 == n / 4
  {
  }

  lemma {:induction false} HalveThrice(n: nat)
    ensures n / 4 / 2 == n / 8
  {
  }

  lemma {:induction false} HalveFourTimes(n: nat)
    ensures n / 8 / 2 == n / 16
  {
  }

  /** The last four binary digits of a number. */
  lemma {:induction false} Nibble(n: nat) returns (q: nat, r3: nat, r2: nat, r1: nat, r0: nat)
    ensures q == n / 16 && r3 == n / 8 % 2 && r2 == n / 4 % 2 && r1 == n / 2 % 2 && r0 == n % 2
    ensures n == 16 * q + 8 * r3 + 4 * r2 + 2 * r1 + r0 && r3 <= 1 && r2 <= 1 && r1 <= 1 && r0 <= 1
  {
    var a, b, c;
    HalveTwice(n);
    HalveThrice(n);
    HalveFourTimes(n);
    a, r0 := Halve(n);
    b, r1 := Halve(a);
    c, r2 := Halve(b);
    q, r3 := Halve(c);
  }

  lemma {:induction false} Sixteenths(n: nat)
    requires n < 256
    ensures n / 16 / 2 == n / 32 && n / 16 / 4 == n / 64 && n / 16 / 8 == n / 128 && n / 16 / 16 == 0
  {
  }

  function Bit01(b: bool): nat {
    if b then 1 else 0
  }

  /** The number that eight binary digits, least significant first, spell. */
  function Sum8(bits: seq<bool>): nat
    requires |bits| == 8
  {
    128 * Bit01(bits[7]) + 64 * Bit01(bits[6]) + 32 * Bit01(bits[5]) + 16 * Bit01(bits[4]) +
    8 * Bit01(bits[3]) + 4 * Bit01(bits[2]) + 2 * Bit01(bits[1]) + Bit01(bits[0])
  }

  lemma {:induction false} LowBits(b: byte) returns (q: nat, b3: bool, b2: bool, b1: bool, b0: bool)
    ensures q == b as nat / 16 && b as nat == 16 * q + 8 * Bit01(b3) + 4 * Bit01(b2) + 2 * Bit01(b1) + Bit01(b0)
    ensures b3 == BitOf(b, 3) && b2 == BitOf(b, 2) && b1 == BitOf(b, 1) && b0 == BitOf(b, 0)
  {
    var r3, r2, r1, r0;
    q, r3, r2, r1, r0 := Nibble(b as nat);
    b3, b2, b1, b0 := r3 == 1, r2 == 1, r1 == 1, r0 == 1;
  }

  lemma {:induction false} HighBits(b: byte) returns (b7: bool, b6: bool, b5: bool, b4: bool)
    ensures b as nat / 16 == 8 * Bit01(b7) + 4 * Bit01(b6) + 2 * Bit01(b5) + Bit01(b4)
    ensures b7 == BitOf(b, 7) && b6 == BitOf(b, 6) && b5 == BitOf(b, 5) && b4 == BitOf(b, 4)
  {
    var n := b as nat;
    Sixteenths(n);
    var z, r7, r6, r5, r4 := Nibble(n / 16);
    b7, b6, b5, b4 := r7 == 1, r6 == 1, r5 == 1, r4 == 1;
  }

  lemma {:induction false} EachBit(b: byte, bits: seq<bool>)
    requires |bits| == 8 && bits[7] == BitOf(b, 7) && bits[6] == BitOf(b, 6) && bits[5] == BitOf(b, 5)
    requires bits[4] == BitOf(b, 4) && bits[3] == BitOf(b, 3) && bits[2] == BitOf(b, 2) && bits[1] == BitOf(b, 1)
    requires bits[0] == BitOf(b, 0)
    ensures forall j :: 0 <= j < 8 ==> bits[j] == BitOf(b, j)
  {
    forall j | 0 <= j < 8 ensures bits[j] == BitOf(b, j) {
      match j {
        case 0 =>
        case 1 =>
        case 2 =>
        case 3 =>
        case 4 =>
        case 5 =>
        case 6 =>
        case 7 =>
      }
    }
  }

  /** A byte and its bits. */
  lemma {:induction false} BitsOf(b: byte) returns (bits: seq<bool>)
    ensures |bits| == 8 && b as nat == Sum8(bits) && forall j :: 0 <= j < 8 ==> bits[j] == BitOf(b, j)
  {
    var q, b3, b2, b1, b0 := LowBits(b);
    var b7, b6, b5, b4 := HighBits(b);
    bits := [b0, b1, b2, b3, b4, b5, b6, b7];
    EachBit(b, bits);
  }

  /** A byte is told by its bits. */
  lemma {:induction false} SameBits(a: byte, b: byte)
    requires forall j :: 0 <= j < 8 ==> BitOf(a, j) == BitOf(b, j)
    ensures a == b
  {
    var x := BitsOf(a);
    var y := BitsOf(b);
    assert x == y;
  }

  /** `1 << j`. */
  function MaskOf(j: nat): (m: bv8)
    requires j < 8
    ensures m & (m - 1) == 0
  {
    if j == 0 then 0x01 else if j == 1 then 0x02 else if j == 2 then 0x04 else if j == 3 then 0x08
    else if j == 4 then 0x10 else if j == 5 then 0x20 else if j == 6 then 0x40 else 0x80
  }

  predicate Set(w: bv8, j: nat)
    requires j < 8
  {
    w & MaskOf(j) != 0
  }

  lemma {:induction false} XorMask(v: bv8, w: bv8, m: bv8)
    requires m & (m - 1) == 0
    ensures (v ^ w) & m != 0 <==> (v & m != 0) != (w & m != 0)
  {
  }

  lemma {:induction false} WordBit(b: byte, j: nat) returns (w: bv8)
    requires j < 8
    ensures w == Word(b) && (Set(w, j) <==> BitOf(b, j))
  {
    w := Word(b);
  }

  lemma {:induction false} UnwordBit(w: bv8, j: nat)
    requires j < 8
    ensures BitOf(Unword(w), j) <==> Set(w, j)
  {
    DigitsHigh(Digit(w & 0x80), Digit(w & 0x40), Digit(w & 0x20), Digit(w & 0x10),
               Digit(w & 0x08), Digit(w & 0x04), Digit(w & 0x02), Digit(w & 0x01));
    DigitsLow(Digit(w & 0x80), Digit(w & 0x40), Digit(w & 0x20), Digit(w & 0x10),
              Digit(w & 0x08), Digit(w & 0x04), Digit(w & 0x02), Digit(w & 0x01));
  }

  lemma {:induction false} XorAt(v: bv8, w: bv8, j: nat) returns (c: byte)
    requires j < 8
    ensures c == Unword(v ^ w) && (BitOf(c, j) <==> Set(v, j) != Set(w, j))
  {
    c := Unword(v ^ w);
    XorMask(v, w, MaskOf(j));
    UnwordBit(v ^ w, j);
  }

  /** `c` has a bit set exactly where `a` and `b` differ. */
  predicate Differs(a: byte, b: byte, c: byte) {
    forall j :: 0 <= j < 8 ==> (BitOf(c, j) <==> BitOf(a, j) != BitOf(b, j))
  }

  /** `a ^ b` on machine words. */
  method XorWords(a: byte, b: byte) returns (c: byte)
    ensures Differs(a, b, c)
  {
    c := Unword(Word(a) ^ Word(b));
    forall j | 0 <= j < 8 ensures BitOf(c, j) <==> BitOf(a, j) != BitOf(b, j) {
      XorByteBit(a, b, c, j);
    }
  }

  lemma {:induction false} XorByteBit(a: byte, b: byte, c: byte, j: nat)
    requires j < 8 && c == Unword(Word(a) ^ Word(b))
    ensures BitOf(c, j) <==> BitOf(a, j) != BitOf(b, j)
  {
    var v := WordBit(a, j);
    var w := WordBit(b, j);
    var d := XorAt(v, w, j);
  }

  lemma {:induction false} OneXor(a: byte, b: byte)
    ensures exists c :: Differs(a, b, c)
    ensures forall c, d :: Differs(a, b, c) && Differs(a, b, d) ==> c == d
  {
    var c := Unword(Word(a) ^ Word(b));
    assert Differs(a, b, c) by {
      forall j | 0 <= j < 8 ensures BitOf(c, j) <==> BitOf(a, j) != BitOf(b, j) {
        XorByteBit(a, b, c, j);
      }
    }
    forall c, d | Differs(a, b, c) && Differs(a, b, d) ensures c == d {
      SameBits(c, d);
    }
  }

  /** The one byte that has a bit set exactly where `a` and `b` differ. */
  function XorByte(a: byte, b: byte): (c: byte)
    ensures Differs(a, b, c)
  {
    OneXor(a, b);
    var c :| Differs(a, b, c);
    c
  }

  lemma {:induction false} NoDifference(a: byte)
    ensures Differs(a, a, 0)
  {
    assert forall j :: 0 <= j < 8 ==> !BitOf(0, j);
  }

  /** The operation is symmetric, a byte cancels itself and nothing else, and the operand comes back. */
  lemma {:induction false} XorByteLaws(a: byte, b: byte)
    ensures XorByte(a, b) == XorByte(b, a)
    ensures XorByte(a, b) == 0 <==> a == b
    ensures XorByte(a, XorByte(a, b)) == b
  {
    SameBits(XorByte(a, b), XorByte(b, a));
    SameBits(XorByte(a, XorByte(a, b)), b);
    NoDifference(a);
    if a == b { SameBits(XorByte(a, b), 0); }
    if XorByte(a, b) == 0 { SameBits(a, b); }
  }

  /** A byte with no bit from `j` up is below one that has bit `j`; with none at all it is zero. */
  lemma {:induction false} LowerByte(x: byte, y: byte, j: nat)
    requires j < 8 && BitOf(x, j) && forall k :: j <= k < 8 ==> !BitOf(y, k)
    ensures y < x
  {
    var a := BitsOf(x);
    var b := BitsOf(y);
    LowerSum(a, b, j);
  }

  lemma {:induction false} LowerSum(a: seq<bool>, b: seq<bool>, j: nat)
    requires |a| == |b| == 8 && j < 8 && a[j] && forall k :: j <= k < 8 ==> !b[k]
    ensures Sum8(b) < Sum8(a)
  {
  }

  lemma {:induction false} ZeroByte(x: byte)
    requires forall k :: 0 <= k < 8 ==> !BitOf(x, k)
    ensures x == 0
  {
    var a := BitsOf(x);
  }
}
