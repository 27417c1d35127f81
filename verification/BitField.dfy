/** The bit-packed set of pieces: bit 7 of byte 0 is piece 0, as BEP 3 lays it out. */
module BitField {
  import opened Bytes

  /** A byte, most significant bit first. */
  type Octet = s: seq<bool> | |s| == 8 witness [false, false, false, false, false, false, false, false]

  const ZERO: Octet := [false, false, false, false, false, false, false, false]

  function OctetOf(x: bv8): Octet {
    [x & 0x80 != 0, x & 0x40 != 0, x & 0x20 != 0, x & 0x10 != 0,
     x & 0x08 != 0, x & 0x04 != 0, x & 0x02 != 0, x & 0x01 != 0]
  }

  /** `1 << (7 - bit)`. */
  function Mask(bit: nat): bv8
    requires bit < 8
  {
    if bit == 0 then 0x80 else if bit == 1 then 0x40 else if bit == 2 then 0x20 else if bit == 3 then 0x10
    else if bit == 4 then 0x08 else if bit == 5 then 0x04 else if bit == 6 then 0x02 else 0x01
  }

  lemma {:induction false} MaskIsShift(bit: nat)
    requires bit < 8
    ensures Mask(bit) == (1 as bv8) << (7 - bit)
  {
  }

  lemma {:induction false} OctetAt(x: bv8, j: nat)
    requires j < 8
    ensures OctetOf(x)[j] <==> x & Mask(j) != 0
  {
  }

  lemma {:induction false} MasksMeet(i: nat, j: nat)
    requires i < 8 && j < 8
    ensures Mask(i) & Mask(j) == if i == j then Mask(i) else 0
    ensures Mask(i) != 0
  {
  }

  lemma {:induction false} OrAnd(x: bv8, m: bv8, n: bv8)
    ensures (x | m) & n != 0 <==> x & n != 0 || m & n != 0
  {
  }

  lemma {:induction false} AndNotAnd(x: bv8, m: bv8, n: bv8)
    ensures (x & !m) & m == 0
    ensures m & n == 0 ==> (x & !m) & n == x & n
  {
  }

  lemma {:induction false} OrBitAt(x: bv8, bit: nat, j: nat)
    requires bit < 8 && j < 8
    ensures (x | Mask(bit)) & Mask(j) != 0 <==> j == bit || x & Mask(j) != 0
    ensures (x & !Mask(bit)) & Mask(j) != 0 <==> j != bit && x & Mask(j) != 0
  {
    OrAnd(x, Mask(bit), Mask(j));
    AndNotAnd(x, Mask(bit), Mask(j));
    MasksMeet(bit, j);
  }

  lemma {:induction false} AndNotAt(x: bv8, y: bv8, j: nat)
    requires j < 8
    ensures (x & !y) & Mask(j) != 0 <==> x & Mask(j) != 0 && y & Mask(j) == 0
  {
  }

  lemma {:induction false} OctetOr(x: bv8, bit: nat, j: nat)
    requires bit < 8 && j < 8
    ensures OctetOf(x | Mask(bit))[j] == (j == bit || OctetOf(x)[j])
  {
    OctetAt(x, j);
    OctetAt(x | Mask(bit), j);
    OrBitAt(x, bit, j);
  }

  lemma {:induction false} OctetAndNot(x: bv8, bit: nat, j: nat)
    requires bit < 8 && j < 8
    ensures OctetOf(x & !Mask(bit))[j] == (j != bit && OctetOf(x)[j])
  {
    OctetAt(x, j);
    OctetAt(x & !Mask(bit), j);
    OrBitAt(x, bit, j);
  }

  lemma {:induction false} OctetDifference(x: bv8, y: bv8, j: nat)
    requires j < 8
    ensures (x & !y) & Mask(j) != 0 <==> OctetOf(x)[j] && !OctetOf(y)[j]
  {
    OctetAt(x, j);
    OctetAt(y, j);
    AndNotAt(x, y, j);
  }

  /** Or-ing a mask in sets one bit. */
  method OrBit(x: bv8, bit: nat) returns (y: bv8)
    requires bit < 8
    ensures forall j :: 0 <= j < 8 ==> OctetOf(y)[j] == (j == bit || OctetOf(x)[j])
  {
    y := x | ((1 as bv8) << (7 - bit));
    assert y == x | Mask(bit) by { MaskIsShift(bit); }
    forall j | 0 <= j < 8 ensures OctetOf(y)[j] == (j == bit || OctetOf(x)[j]) {
      OctetOr(x, bit, j);
    }
  }

  /** And-ing its complement clears it. */
  method AndNotBit(x: bv8, bit: nat) returns (y: bv8)
    requires bit < 8
    ensures forall j :: 0 <= j < 8 ==> OctetOf(y)[j] == (j != bit && OctetOf(x)[j])
  {
    y := x & !((1 as bv8) << (7 - bit));
    assert y == x & !Mask(bit) by { MaskIsShift(bit); }
    forall j | 0 <= j < 8 ensures OctetOf(y)[j] == (j != bit && OctetOf(x)[j]) {
      OctetAndNot(x, bit, j);
    }
  }

  /** Masking a difference of two bytes tests a bit of it. */
  method TestDifference(x: bv8, y: bv8, bit: nat) returns (r: bool)
    requires bit < 8
    ensures r == (OctetOf(x)[bit] && !OctetOf(y)[bit])
  {
    var diff := x & !y;
    MaskIsShift(bit);
    OctetDifference(x, y, bit);
    r := diff & ((1 as bv8) << (7 - bit)) != 0;
  }

  method TestBit(x: bv8, bit: nat) returns (r: bool)
    requires bit < 8
    ensures r == OctetOf(x)[bit]
  {
    MaskIsShift(bit);
    OctetAt(x, bit);
    r := x & ((1 as bv8) << (7 - bit)) != 0;
  }

  /** A bitfield as a value: what `clone` hands out. */
  datatype Bits = Bits(bytes: seq<Octet>, pieceCount: nat)

  /** Bit `i` of the packed bytes; bytes that are not there read as zero. */
  predicate RawBit(b: Bits, i: nat) {
    i / 8 < |b.bytes| && b.bytes[i / 8][i % 8]
  }

  /** There is a byte for every piece; a bitfield from the wire may have fewer, and then indexing it fails. */
  predicate Wide(b: Bits) {
    b.pieceCount <= 8 * |b.bytes|
  }

  /** There is a byte for piece `i`, or `i` is not a piece; otherwise setting it panics. */
  predicate Reaches(b: Bits, i: nat) {
    i < b.pieceCount ==> i / 8 < |b.bytes|
  }

  /** `BitField::have`. */
  predicate Have(b: Bits, i: nat) {
    i < b.pieceCount && RawBit(b, i)
  }

  /** The set of pieces the bytes stand for. */
  function Pieces(b: Bits): set<nat> {
    set i | 0 <= i < b.pieceCount && RawBit(b, i)
  }

  function Empty(pieceCount: nat): Bits {
    Bits(seq((pieceCount + 7) / 8, _ => ZERO), pieceCount)
  }

  function Put(b: Bits, i: nat, bit: bool): Bits
    requires Reaches(b, i)
  {
    if i >= b.pieceCount then b else b.(bytes := b.bytes[i / 8 := b.bytes[i / 8][i % 8 := bit]])
  }

  /** `BitField::set` and `BitField::unset`. */
  function Set(b: Bits, i: nat): Bits
    requires Reaches(b, i)
  {
    Put(b, i, true)
  }

  function Unset(b: Bits, i: nat): Bits
    requires Reaches(b, i)
  {
    Put(b, i, false)
  }

  lemma {:induction false} PutBitAt(b: Bits, i: nat, bit: bool, j: nat)
    requires Reaches(b, i) && i < b.pieceCount
    ensures RawBit(Put(b, i, bit), j) <==> if j == i then bit else RawBit(b, j)
  {
    Places(i, j);
  }

  lemma {:induction false} Places(i: nat, j: nat)
    ensures i == j <==> i / 8 == j / 8 && i % 8 == j % 8
  {
  }

  /** Each operation on the packed bytes is the operation on the set, inside the piece count, and nothing outside. */
  lemma {:induction false} OperationsRefineSet(b: Bits, i: nat)
    requires Reaches(b, i)
    ensures |Set(b, i).bytes| == |Unset(b, i).bytes| == |b.bytes|
    ensures Pieces(Set(b, i)) == Pieces(b) + (if i < b.pieceCount then {i} else {})
    ensures Pieces(Unset(b, i)) == Pieces(b) - {i}
  {
    if i < b.pieceCount {
      forall j: nat, bit: bool
        ensures RawBit(Put(b, i, bit), j) <==> if j == i then bit else RawBit(b, j)
      {
        PutBitAt(b, i, bit, j);
      }
    }
  }

  lemma {:induction false} EmptyHasNone(n: nat)
    ensures Wide(Empty(n)) && Pieces(Empty(n)) == {} && Empty(n).pieceCount == n
    ensures n <= 8 * |Empty(n).bytes| < n + 8
  {
  }

  datatype Edit = DoSet(index: nat) | DoUnset(index: nat)

  function Edited(b: Bits, edits: seq<Edit>): (r: Bits)
    requires Wide(b)
    ensures Wide(r) && r.pieceCount == b.pieceCount && |r.bytes| == |b.bytes|
    decreases |edits|
  {
    if edits == [] then b
    else Edited(match edits[0] case DoSet(i) => Set(b, i) case DoUnset(i) => Unset(b, i), edits[1..])
  }

  function EditedSet(s: set<nat>, n: nat, edits: seq<Edit>): set<nat>
    decreases |edits|
  {
    if edits == [] then s
    else
      var t := match edits[0] case DoSet(i) => if i < n then s + {i} else s case DoUnset(i) => s - {i};
      EditedSet(t, n, edits[1..])
  }

  /** Any sequence of edits of the packed bytes is that sequence of edits of a set. */
  lemma {:induction false} RunRefinesSet(b: Bits, edits: seq<Edit>)
    requires Wide(b)
    ensures Pieces(Edited(b, edits)) == EditedSet(Pieces(b), b.pieceCount, edits)
    decreases |edits|
  {
    if edits != [] {
      OperationsRefineSet(b, edits[0].index);
      match edits[0]
      case DoSet(i) =>
        assert i >= b.pieceCount ==> Pieces(Set(b, i)) == Pieces(b);
        RunRefinesSet(Set(b, i), edits[1..]);
      case DoUnset(i) => RunRefinesSet(Unset(b, i), edits[1..]);
    }
  }

  /** `BitField::difference`: byte by byte, bit by bit; a byte that is not there is zero. */
  function ByteAt(b: Bits, byteIdx: nat): Octet {
    if byteIdx < |b.bytes| then b.bytes[byteIdx] else ZERO
  }

  function BitsOfByte(a: Bits, b: Bits, byteIdx: nat, bitPos: nat): seq<nat>
    requires bitPos <= 8
    decreases a, b, 8 - bitPos
  {
    if bitPos == 8 then []
    else
      var at := byteIdx * 8 + bitPos;
      (if at < a.pieceCount && ByteAt(a, byteIdx)[bitPos] && !ByteAt(b, byteIdx)[bitPos] then [at] else [])
      + BitsOfByte(a, b, byteIdx, bitPos + 1)
  }

  function DifferenceFrom(a: Bits, b: Bits, byteIdx: nat): seq<nat>
    decreases Max(|a.bytes|, |b.bytes|) - byteIdx
  {
    if byteIdx >= Max(|a.bytes|, |b.bytes|) then []
    else BitsOfByte(a, b, byteIdx, 0) + DifferenceFrom(a, b, byteIdx + 1)
  }

  function Difference(a: Bits, b: Bits): seq<nat> {
    DifferenceFrom(a, b, 0)
  }

  ghost predicate Ascending(s: seq<nat>) {
    forall i, j :: 0 <= i < j < |s| ==> s[i] < s[j]
  }

  predicate OnlyIn(a: Bits, b: Bits, i: nat) {
    Have(a, i) && !RawBit(b, i)
  }

  /** `s` lists, in ascending order, exactly the indices of `lo .. hi` that `a` has and `b` lacks. */
  ghost predicate Lists(s: seq<nat>, a: Bits, b: Bits, lo: nat, hi: nat) {
    && Ascending(s)
    && forall i: nat :: i in s <==> lo <= i < hi && OnlyIn(a, b, i)
  }

  lemma {:induction false} Append(s: seq<nat>, t: seq<nat>, a: Bits, b: Bits, lo: nat, mid: nat, hi: nat)
    requires lo <= mid <= hi && Lists(s, a, b, lo, mid) && Lists(t, a, b, mid, hi)
    ensures Lists(s + t, a, b, lo, hi)
  {
    assert forall i :: 0 <= i < |s| ==> s[i] in s;
    assert forall i :: 0 <= i < |t| ==> t[i] in t;
    assert forall i: nat :: i in s + t <==> i in s || i in t;
  }

  lemma {:induction false} Prepend(tail: seq<nat>, a: Bits, b: Bits, at: nat, hi: nat)
    requires at < hi && Lists(tail, a, b, at + 1, hi)
    ensures Lists((if OnlyIn(a, b, at) then [at] else []) + tail, a, b, at, hi)
  {
    if OnlyIn(a, b, at) {
      Append([at], tail, a, b, at, at + 1, hi);
    } else {
      assert [] + tail == tail;
    }
  }

  lemma {:induction false} ByteUnfold(a: Bits, b: Bits, byteIdx: nat, bitPos: nat)
    requires bitPos < 8
    ensures var at := byteIdx * 8 + bitPos;
            BitsOfByte(a, b, byteIdx, bitPos) ==
            (if OnlyIn(a, b, at) then [at] else []) + BitsOfByte(a, b, byteIdx, bitPos + 1)
  {
    var at := byteIdx * 8 + bitPos;
    assert at / 8 == byteIdx && at % 8 == bitPos;
  }

  lemma {:induction false} ByteLists(a: Bits, b: Bits, byteIdx: nat, bitPos: nat)
    requires bitPos <= 8
    ensures Lists(BitsOfByte(a, b, byteIdx, bitPos), a, b, byteIdx * 8 + bitPos, byteIdx * 8 + 8)
    decreases 8 - bitPos
  {
    if bitPos < 8 {
      var at, rest := byteIdx * 8 + bitPos, BitsOfByte(a, b, byteIdx, bitPos + 1);
      ByteLists(a, b, byteIdx, bitPos + 1);
      Prepend(rest, a, b, at, byteIdx * 8 + 8);
      ByteUnfold(a, b, byteIdx, bitPos);
    }
  }

  lemma {:induction false} DifferenceLists(a: Bits, b: Bits, byteIdx: nat)
    ensures Lists(DifferenceFrom(a, b, byteIdx), a, b,
                  byteIdx * 8, Max(8 * Max(|a.bytes|, |b.bytes|), byteIdx * 8))
    decreases Max(|a.bytes|, |b.bytes|) - byteIdx
  {
    if byteIdx < Max(|a.bytes|, |b.bytes|) {
      ByteLists(a, b, byteIdx, 0);
      DifferenceLists(a, b, byteIdx + 1);
      Append(BitsOfByte(a, b, byteIdx, 0), DifferenceFrom(a, b, byteIdx + 1), a, b,
             byteIdx * 8, byteIdx * 8 + 8, 8 * Max(|a.bytes|, |b.bytes|));
    }
  }

  /** For two bitfields of one piece count the difference is exactly the set difference, strictly ascending; stray
      trailing bits of either side are never reported. */
  lemma {:induction false} DifferenceIsSetDifference(a: Bits, b: Bits)
    requires a.pieceCount == b.pieceCount
    ensures Ascending(Difference(a, b))
    ensures forall i: nat :: i in Difference(a, b) <==> i in Pieces(a) && i !in Pieces(b)
  {
    DifferenceLists(a, b, 0);
  }

  /** Without equal counts the other side's count plays no part: its raw bits are subtracted. */
  lemma {:induction false} DifferenceIgnoresOtherCount(a: Bits, b: Bits, n: nat)
    ensures Difference(a, b) == Difference(a, b.(pieceCount := n))
  {
    SameBytesSameDifference(a, b, b.(pieceCount := n), 0);
  }

  lemma {:induction false} SameBytesSameDifference(a: Bits, b: Bits, c: Bits, byteIdx: nat)
    requires b.bytes == c.bytes
    ensures DifferenceFrom(a, b, byteIdx) == DifferenceFrom(a, c, byteIdx)
    decreases Max(|a.bytes|, |b.bytes|) - byteIdx
  {
    if byteIdx < Max(|a.bytes|, |b.bytes|) {
      SameBytesSameByte(a, b, c, byteIdx, 0);
      SameBytesSameDifference(a, b, c, byteIdx + 1);
    }
  }

  lemma {:induction false} SameBytesSameByte(a: Bits, b: Bits, c: Bits, byteIdx: nat, bitPos: nat)
    requires b.bytes == c.bytes && bitPos <= 8
    ensures BitsOfByte(a, b, byteIdx, bitPos) == BitsOfByte(a, c, byteIdx, bitPos)
    decreases 8 - bitPos
  {
    if bitPos < 8 { SameBytesSameByte(a, b, c, byteIdx, bitPos + 1); }
  }

  function HaveOf(b: Bits): nat -> bool {
    (i: nat) => Have(b, i)
  }

  /** `BitField::missing_pieces`, over the indices from `i` on. */
  function Missing(have: nat -> bool, n: nat, i: nat): seq<nat>
    decreases n - i
  {
    if i >= n then [] else (if have(i) then [] else [i]) + Missing(have, n, i + 1)
  }

  /** `BitField::is_complete`. */
  predicate IsComplete(b: Bits) {
    Missing(HaveOf(b), b.pieceCount, 0) == []
  }

  /** `BitField::count`. */
  function CountTo(have: nat -> bool, n: nat): nat {
    if n == 0 then 0 else CountTo(have, n - 1) + if have(n - 1) then 1 else 0
  }

  function Count(b: Bits): nat {
    CountTo(HaveOf(b), b.pieceCount)
  }

  lemma {:induction false} MissingExact(have: nat -> bool, n: nat, from: nat)
    ensures Missing(have, n, from) == [] <==> forall i: nat :: from <= i < n ==> have(i)
    decreases n - from
  {
    if from < n { MissingExact(have, n, from + 1); }
  }

  lemma {:induction false} CountToIsSize(have: nat -> bool, n: nat, s: set<nat>)
    requires forall i: nat :: i in s <==> i < n && have(i)
    ensures CountTo(have, n) == |s|
  {
    if n == 0 {
      assert s == {};
    } else {
      CountToIsSize(have, n - 1, s - {n - 1});
    }
  }

  /** The derived queries agree with the set: the number of set bits is its size, completeness is having every piece. */
  lemma {:induction false} QueriesAgree(b: Bits)
    ensures Count(b) == |Pieces(b)|
    ensures IsComplete(b) <==> forall i: nat :: i < b.pieceCount ==> i in Pieces(b)
  {
    var have := HaveOf(b);
    CountToIsSize(have, b.pieceCount, Pieces(b));
    MissingExact(have, b.pieceCount, 0);
    assert forall i: nat :: i < b.pieceCount ==> (have(i) <==> i in Pieces(b));
  }

  function OctetsOf(bytes: seq<bv8>): seq<Octet> {
    seq(|bytes|, i requires 0 <= i < |bytes| => OctetOf(bytes[i]))
  }

  lemma {:induction false} OctetsUpdate(bytes: seq<bv8>, at: nat, x: bv8, o: Octet)
    requires at < |bytes| && OctetOf(x) == o
    ensures OctetsOf(bytes[at := x]) == OctetsOf(bytes)[at := o]
  {
  }

  class BitField {
    var bytes: seq<bv8>
    const pieceCount: nat

    function Snapshot(): Bits
      reads this
    {
      Bits(OctetsOf(bytes), pieceCount)
    }

    /** `BitField::empty`. */
    constructor (pieceCount: nat)
      ensures Snapshot() == Empty(pieceCount)
    {
      this.pieceCount := pieceCount;
      bytes := seq((pieceCount + 7) / 8, _ => 0);
    }

    /** `BitField::set`. */
    method SetBit(index: nat)
      requires Reaches(Snapshot(), index)
      modifies this
      ensures Snapshot() == Set(old(Snapshot()), index) && |bytes| == |old(bytes)|
      ensures Pieces(Snapshot()) == old(Pieces(Snapshot())) + (if index < pieceCount then {index} else {})
    {
      OperationsRefineSet(Snapshot(), index);
      if index >= pieceCount {
        return;
      }
      var at, bit := index / 8, index % 8;
      var x := OrBit(bytes[at], bit);
      OctetsUpdate(bytes, at, x, OctetsOf(bytes)[at][bit := true]);
      bytes := bytes[at := x];
    }

    /** `BitField::unset`. */
    method UnsetBit(index: nat)
      requires Reaches(Snapshot(), index)
      modifies this
      ensures Snapshot() == Unset(old(Snapshot()), index) && |bytes| == |old(bytes)|
      ensures Pieces(Snapshot()) == old(Pieces(Snapshot())) - {index}
    {
      OperationsRefineSet(Snapshot(), index);
      if index >= pieceCount {
        return;
      }
      var at, bit := index / 8, index % 8;
      var x := AndNotBit(bytes[at], bit);
      OctetsUpdate(bytes, at, x, OctetsOf(bytes)[at][bit := false]);
      bytes := bytes[at := x];
    }

    /** `BitField::have`. */
    method HaveBit(index: nat) returns (r: bool)
      requires Reaches(Snapshot(), index)
      ensures r == Have(Snapshot(), index)
    {
      if index >= pieceCount {
        return false;
      }
      r := TestBit(bytes[index / 8], index % 8);
    }

    /** `BitField::difference`. */
    method DifferenceWith(other: BitField) returns (s: seq<nat>)
      ensures s == Difference(Snapshot(), other.Snapshot())
    {
      ghost var a, b := Snapshot(), other.Snapshot();
      s := [];
      for byteIdx := 0 to Max(|bytes|, |other.bytes|)
        invariant s + DifferenceFrom(a, b, byteIdx) == Difference(a, b)
      {
        var here := DifferenceByte(bytes, other.bytes, byteIdx, pieceCount, a, b);
        s := s + here;
      }
    }
  }

  /** One byte of it. */
  method DifferenceByte(mine: seq<bv8>, theirs: seq<bv8>, byteIdx: nat, pieceCount: nat, ghost a: Bits, ghost b: Bits)
    returns (s: seq<nat>)
    requires a == Bits(OctetsOf(mine), pieceCount) && b.bytes == OctetsOf(theirs)
    ensures s == BitsOfByte(a, b, byteIdx, 0)
  {
    s := [];
    for bitPos := 0 to 8
      invariant s + BitsOfByte(a, b, byteIdx, bitPos) == BitsOfByte(a, b, byteIdx, 0)
    {
      var differs := DifferenceBit(mine, theirs, byteIdx, bitPos, a, b);
      var pieceIndex := byteIdx * 8 + bitPos;
      NextBit(s, a, b, byteIdx, bitPos);
      if pieceIndex < pieceCount && differs {
        s := s + [pieceIndex];
      } else {
        assert s + [] == s;
      }
    }
  }

  lemma {:induction false} NextBit(s: seq<nat>, a: Bits, b: Bits, byteIdx: nat, bitPos: nat)
    requires bitPos < 8
    ensures var at := byteIdx * 8 + bitPos;
            var differs := ByteAt(a, byteIdx)[bitPos] && !ByteAt(b, byteIdx)[bitPos];
            var here := if at < a.pieceCount && differs then [at] else [];
            s + BitsOfByte(a, b, byteIdx, bitPos) == (s + here) + BitsOfByte(a, b, byteIdx, bitPos + 1)
  {
  }

  method DifferenceBit(mine: seq<bv8>, theirs: seq<bv8>, byteIdx: nat, bitPos: nat, ghost a: Bits, ghost b: Bits)
    returns (r: bool)
    requires a.bytes == OctetsOf(mine) && b.bytes == OctetsOf(theirs) && bitPos < 8
    ensures r == (ByteAt(a, byteIdx)[bitPos] && !ByteAt(b, byteIdx)[bitPos])
  {
    var myByte: bv8 := if byteIdx < |mine| then mine[byteIdx] else 0;
    var theirByte: bv8 := if byteIdx < |theirs| then theirs[byteIdx] else 0;
    assert OctetOf(0) == ZERO;
    r := TestDifference(myByte, theirByte, bitPos);
  }
}
