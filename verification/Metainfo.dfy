/** Version 1 metainfo: building it from files, validating it, and verifying files against it. */
module Metainfo {
  import opened Bytes
  import opened Storage
  import opened PieceHash
  import opened BitField

  type Hash20 = s: seq<byte> | |s| == 20 witness [0, 0, 0, 0, 0, 0, 0, 0, 0, 0, 0, 0, 0, 0, 0, 0, 0, 0, 0, 0]
  type Sha1 = seq<byte> -> Hash20

  /** Piece lengths are 64-bit words. */
  type u64 = bv64

  datatype V1Mode = SingleFile(length: nat) | MultiFile(lengths: seq<nat>)

  datatype TorrentV1 = TorrentV1(pieceLength: u64, pieces: seq<byte>, mode: V1Mode)

  datatype TorrentError = InvalidPieceLength | NotPowerOfTwo | PiecesNotMultiple | Mismatch | EmptyTorrent

  const MIN_LIMIT: u64 := 16 * 1024
  const MAX_LIMIT: u64 := 128 * 1024 * 1024

  function Sum(lengths: seq<nat>): nat {
    if lengths == [] then 0 else lengths[0] + Sum(lengths[1..])
  }

  function ModeSize(mode: V1Mode): nat {
    match mode
    case SingleFile(n) => n
    case MultiFile(lengths) => Sum(lengths)
  }

  /** `TorrentV1::total_size`. */
  function TotalSize(t: TorrentV1): nat {
    ModeSize(t.mode)
  }

  /** `PieceLength::validate`. */
  function ValidateLength(pl: u64): Result<(), TorrentError> {
    if pl < MIN_LIMIT || pl > MAX_LIMIT then Err(InvalidPieceLength)
    else if pl & (pl - 1) != 0 then Err(NotPowerOfTwo)
    else Ok(())
  }

  /** The bit trick accepts exactly the powers of two from 2^14 to 2^27. */
  lemma {:induction false} LengthIsPowerOfTwo(pl: u64)
    ensures ValidateLength(pl).Ok? <==> pl in POWERS
  {
    if MIN_LIMIT <= pl <= MAX_LIMIT { TrickIsExact(pl); }
  }

  const POWERS: set<u64> := {0x4000, 0x8000, 0x1_0000, 0x2_0000, 0x4_0000, 0x8_0000, 0x10_0000, 0x20_0000, 0x40_0000,
                             0x80_0000, 0x100_0000, 0x200_0000, 0x400_0000, 0x800_0000}

  lemma {:induction false} TrickIsExact(x: u64)
    requires 0x4000 <= x <= 0x800_0000
    ensures x & (x - 1) == 0 <==> x in POWERS
  {
  }

  lemma {:induction false} LengthInRange(x: u64)
    requires ValidateLength(x).Ok?
    ensures 0x4000 <= x as nat <= 0x800_0000
  {
  }

  /** `TorrentV1::validate`. */
  function Validate(t: TorrentV1): Result<(), TorrentError> {
    match ValidateLength(t.pieceLength)
    case Err(e) => Err(e)
    case Ok(_) =>
      LengthInRange(t.pieceLength);
      var expected := NumPieces(TotalSize(t), t.pieceLength as nat);
      if |t.pieces| % 20 != 0 then Err(PiecesNotMultiple)
      else if expected != |t.pieces| / 20 then Err(Mismatch)
      else if TotalSize(t) == 0 then Err(EmptyTorrent)
      else Ok(())
  }

  /** Piece `i` of the torrent would have a first byte. */
  predicate Begins(t: TorrentV1, i: nat) {
    i * (t.pieceLength as nat) < TotalSize(t)
  }

  /** There is a hash for every piece and for nothing else. */
  ghost predicate HashPerPiece(t: TorrentV1) {
    forall i: nat :: i < |t.pieces| / 20 <==> Begins(t, i)
  }

  lemma {:induction false} CountIsExact(t: TorrentV1)
    requires t.pieceLength as nat > 0
    ensures NumPieces(TotalSize(t), t.pieceLength as nat) == |t.pieces| / 20 <==> HashPerPiece(t)
  {
    var n, found := NumPieces(TotalSize(t), t.pieceLength as nat), |t.pieces| / 20;
    forall i: nat ensures i < n <==> Begins(t, i) { PieceStarts(TotalSize(t), t.pieceLength as nat, i); }
    if n != found {
      var i: nat := if n < found then n else found;
      assert i < found <==> !Begins(t, i);
    }
  }

  /** Any torrent, from wherever, validates if and only if its piece length is a power of two from 2^14 to 2^27, its
      hashes are whole, there is one for every piece and for nothing else, and it is not empty. Otherwise the error
      tells the first of these that fails, in this order. */
  lemma {:induction false} ValidatesIff(t: TorrentV1)
    ensures Validate(t).Ok? <==>
            t.pieceLength in POWERS && |t.pieces| % 20 == 0 && HashPerPiece(t) && TotalSize(t) > 0
    ensures t.pieceLength !in POWERS ==>
              Validate(t) == Err(if 0x4000 <= t.pieceLength <= 0x800_0000 then NotPowerOfTwo else InvalidPieceLength)
    ensures t.pieceLength in POWERS && |t.pieces| % 20 != 0 ==> Validate(t) == Err(PiecesNotMultiple)
    ensures t.pieceLength in POWERS && |t.pieces| % 20 == 0 && !HashPerPiece(t) ==> Validate(t) == Err(Mismatch)
    ensures t.pieceLength in POWERS && |t.pieces| % 20 == 0 && HashPerPiece(t) && TotalSize(t) == 0 ==>
              Validate(t) == Err(EmptyTorrent)
  {
    LengthIsPowerOfTwo(t.pieceLength);
    if ValidateLength(t.pieceLength).Ok? {
      LengthInRange(t.pieceLength);
      CountIsExact(t);
    }
  }

  /** `TorrentV1::piece_hashes`: `chunks_exact(20)`. */
  function Chunks20(s: seq<byte>): (r: seq<Hash20>)
    ensures |r| == |s| / 20
  {
    if |s| < 20 then [] else [s[..20]] + Chunks20(s[20..])
  }

  function Concat(hashes: seq<Hash20>): seq<byte> {
    if hashes == [] then [] else hashes[0] + Concat(hashes[1..])
  }

  lemma {:induction false} ChunksOfConcat(hashes: seq<Hash20>)
    ensures |Concat(hashes)| == 20 * |hashes| && Chunks20(Concat(hashes)) == hashes
  {
    if hashes != [] {
      ChunksOfConcat(hashes[1..]);
      assert Concat(hashes)[..20] == hashes[0] && Concat(hashes)[20..] == Concat(hashes[1..]);
    }
  }

  /** `hashes` are the hashes of the pieces of `flat`. */
  ghost predicate AreHashes(sha1: Sha1, hashes: seq<Hash20>, flat: seq<byte>, p: nat)
    requires p > 0
  {
    |hashes| == NumPieces(|flat|, p) &&
    forall j :: 0 <= j < |hashes| ==> j * p <= |flat| && hashes[j] == sha1(Piece(flat, p, j))
  }

  /** The lengths recorded are those of the files, in order. */
  ghost predicate Records(mode: V1Mode, files: seq<seq<byte>>) {
    match mode
    case SingleFile(n) => |files| == 1 && n == |files[0]|
    case MultiFile(lengths) =>
      |files| != 1 && |lengths| == |files| && forall i :: 0 <= i < |files| ==> lengths[i] == |files[i]|
  }

  /** `PieceHasherV1::finalize`. */
  method Build(sha1: Sha1, files: seq<seq<byte>>, pieceLength: u64, counts: (nat, nat) -> nat)
    returns (t: TorrentV1, ghost hashes: seq<Hash20>)
    ensures t.pieceLength == pieceLength && t.pieces == Concat(hashes) && TotalSize(t) == |Flat(files)|
    ensures pieceLength as nat > 0 ==> AreHashes(sha1, hashes, Flat(files), pieceLength as nat)
    ensures Records(t.mode, files)
  {
    var pieces, mode;
    pieces, mode, hashes := BuildParts(sha1, files, pieceLength as nat, counts);
    t := TorrentV1(pieceLength, pieces, mode);
  }

  method BuildParts(sha1: Sha1, files: seq<seq<byte>>, p: nat, counts: (nat, nat) -> nat)
    returns (pieces: seq<byte>, mode: V1Mode, ghost hashes: seq<Hash20>)
    ensures pieces == Concat(hashes) && ModeSize(mode) == |Flat(files)|
    ensures p > 0 ==> AreHashes(sha1, hashes, Flat(files), p)
    ensures Records(mode, files)
  {
    var entries := FileHandle(files, p, counts);
    pieces, hashes := HashAll(sha1, entries);
    var lengths := seq(|files|, i requires 0 <= i < |files| => |files[i]|);
    SumIsFlat(files, lengths);
    if |files| == 1 { assert lengths[1..] == []; }
    mode := if |files| == 1 then SingleFile(lengths[0]) else MultiFile(lengths);
  }

  method HashAll(sha1: Sha1, entries: seq<(nat, seq<byte>)>) returns (pieces: seq<byte>, hashes: seq<Hash20>)
    ensures |hashes| == |entries| && pieces == Concat(hashes)
    ensures forall i :: 0 <= i < |entries| ==> hashes[i] == sha1(entries[i].1)
  {
    pieces, hashes := [], [];
    for j := 0 to |entries|
      invariant |hashes| == j && pieces == Concat(hashes)
      invariant forall i :: 0 <= i < j ==> hashes[i] == sha1(entries[i].1)
    {
      var h := sha1(entries[j].1);
      ConcatPush(hashes, h);
      hashes := hashes + [h];
      pieces := pieces + h;
    }
  }

  lemma {:induction false} ConcatPush(hashes: seq<Hash20>, h: Hash20)
    ensures Concat(hashes + [h]) == Concat(hashes) + h
  {
    if hashes == [] {
      assert hashes + [h] == [h] && [h][1..] == [];
    } else {
      assert (hashes + [h])[1..] == hashes[1..] + [h];
      ConcatPush(hashes[1..], h);
    }
  }

  lemma {:induction false} SumIsFlat(files: seq<seq<byte>>, lengths: seq<nat>)
    requires |lengths| == |files| && forall i :: 0 <= i < |files| ==> lengths[i] == |files[i]|
    ensures Sum(lengths) == |Flat(files)|
    decreases |files|
  {
    if files != [] { SumIsFlat(files[1..], lengths[1..]); }
  }

  /** A built torrent validates exactly when its piece length does and it is not empty. */
  lemma {:induction false} BuiltTorrentValidates(sha1: Sha1, t: TorrentV1, flat: seq<byte>, hashes: seq<Hash20>)
    requires t.pieces == Concat(hashes) && TotalSize(t) == |flat|
    requires t.pieceLength as nat > 0 && AreHashes(sha1, hashes, flat, t.pieceLength as nat)
    ensures Validate(t).Ok? <==> ValidateLength(t.pieceLength).Ok? && flat != []
  {
    ChunksOfConcat(hashes);
  }

  /** `StateResources::verify_pieces`: the bits set are exactly the pieces whose bytes hash to what is expected; a hash
      beyond the last piece is an error. */
  method VerifyPieces(sha1: Sha1, handler: MultiFileHandler, hashes: seq<Hash20>)
    returns (r: Result<BitField, ChunkError>)
    requires handler.Valid() && handler.pieceLength > 0
    ensures var flat, p := Flat(handler.files), handler.pieceLength;
            && (r.Ok? <==> |hashes| <= NumPieces(|flat|, p))
            && (r.Err? ==> r.error == OutOfBounds(NumPieces(|flat|, p)))
            && (r.Ok? ==> fresh(r.value) && r.value.pieceCount == |hashes| && Wide(r.value.Snapshot()))
            && (r.Ok? ==> forall i: nat ::
                  i in Pieces(r.value.Snapshot()) <==>
                  i < |hashes| && i * p <= |flat| && sha1(Piece(flat, p, i)) == hashes[i])
  {
    ghost var flat, p := Flat(handler.files), handler.pieceLength;
    var bitfield := new BitField(|hashes|);
    EmptyHasNone(|hashes|);
    for index := 0 to |hashes|
      invariant index <= NumPieces(|flat|, p)
      invariant fresh(bitfield) && bitfield.pieceCount == |hashes| && Wide(bitfield.Snapshot())
      invariant forall i: nat :: i in Pieces(bitfield.Snapshot()) <==>
                  i < index && i * p <= |flat| && sha1(Piece(flat, p, i)) == hashes[i]
    {
      PieceStarts(|flat|, p, index);
      var data := handler.ReadPiece(index);
      if data.Err? {
        return Err(data.error);
      }
      if sha1(data.value) == hashes[index] {
        bitfield.SetBit(index);
      }
    }
    return Ok(bitfield);
  }

  /** Verifying files against the hashes of their own pieces sets every bit. */
  method SeedSame(sha1: Sha1, files: seq<seq<byte>>, p: nat, hashes: seq<Hash20>) returns (bitfield: BitField)
    requires p > 0 && AreHashes(sha1, hashes, Flat(files), p)
    ensures fresh(bitfield) && bitfield.pieceCount == |hashes| && IsComplete(bitfield.Snapshot())
  {
    var handler := new MultiFileHandler(p, files);
    var r := VerifyPieces(sha1, handler, hashes);
    bitfield := r.value;
    QueriesAgree(bitfield.Snapshot());
  }

  /** Hash and read agree: whatever the files and the short reads while hashing, a torrent built from them with a legal
      piece length and some content validates, and verifying the same files against it sets every bit. */
  method BuildThenSeed(sha1: Sha1, files: seq<seq<byte>>, pieceLength: u64, counts: (nat, nat) -> nat)
    returns (t: TorrentV1, bitfield: BitField)
    requires ValidateLength(pieceLength).Ok? && Flat(files) != []
    ensures Validate(t) == Ok(()) && fresh(bitfield)
    ensures pieceLength as nat > 0 && bitfield.pieceCount == NumPieces(|Flat(files)|, pieceLength as nat)
    ensures IsComplete(bitfield.Snapshot())
  {
    LengthInRange(pieceLength);
    ghost var hashes;
    t, hashes := Build(sha1, files, pieceLength, counts);
    BuiltTorrentValidates(sha1, t, Flat(files), hashes);
    ChunksOfConcat(hashes);
    bitfield := SeedSame(sha1, files, pieceLength as nat, Chunks20(t.pieces));
  }

  /** `TorrentSession::piece_size`. */
  function PieceSize(index: nat, totalPieces: nat, pieceLength: nat, totalSize: nat): nat
    requires totalPieces > 0 && pieceLength > 0
  {
    if index != totalPieces - 1 then pieceLength
    else
      var remainder := totalSize % pieceLength;
      if remainder == 0 then pieceLength else remainder
  }

  /** It is the length of the piece, for every piece of a torrent with the right number of hashes. */
  lemma {:induction false} PieceSizeIsLength(s: seq<byte>, p: nat, i: nat)
    requires p > 0 && i < NumPieces(|s|, p)
    ensures i * p < |s| && PieceSize(i, NumPieces(|s|, p), p, |s|) == |Piece(s, p, i)|
  {
    var n := NumPieces(|s|, p);
    PieceStarts(|s|, p, i);
    PieceStarts(|s|, p, i + 1);
    assert (i + 1) * p == i * p + p;
    if i == n - 1 {
      var last := |s| - i * p;
      assert 0 < last <= p;
      RemainderOf(|s|, p, i, last);
    }
  }

  /** After a whole download, its writes interleaved anyhow, every piece reads back, and `piece_size` tells its
      length. */
  method DownloadThenRead(handler: MultiFileHandler, data: seq<byte>, writes: seq<(nat, nat)>, index: nat)
    returns (r: Result<seq<byte>, ChunkError>)
    requires handler.Valid() && handler.pieceLength > 0 && handler.totalLength == |data|
    requires AllStart(writes, handler.pieceLength, |data|)
    requires forall k :: 0 <= k < |writes| ==> writes[k].1 < |handler.targets|
    requires forall i: nat, f: nat :: Due(handler.targets, data, handler.pieceLength, i, f) ==> (i, f) in writes
    modifies handler`files
    ensures handler.Valid()
    ensures var p, n := handler.pieceLength, NumPieces(|data|, handler.pieceLength);
            if index < n then
              && index * p < |data| && r == Ok(Piece(data, p, index))
              && |r.value| == PieceSize(index, n, p, |data|)
            else r == Err(OutOfBounds(index))
  {
    Download(handler, data, writes);
    r := handler.ReadPiece(index);
    PieceStarts(|data|, handler.pieceLength, index);
    if index < NumPieces(|data|, handler.pieceLength) {
      PieceSizeIsLength(data, handler.pieceLength, index);
    }
  }

  lemma {:induction false} RemainderOf(total: nat, p: nat, i: nat, last: nat)
    requires p > 0 && total == i * p + last && 0 < last <= p
    ensures total % p == if last == p then 0 else last
  {
    if last == p {
      PieceOf(total, p, i + 1);
      assert (i + 1) * p == i * p + p;
      assert total == (total / p) * p + total % p;
    } else {
      PieceOf(total, p, i);
      assert total == (total / p) * p + total % p;
    }
  }

  function SizesUpTo(n: nat, totalPieces: nat, p: nat, total: nat): nat
    requires totalPieces > 0 && p > 0
  {
    if n == 0 then 0 else SizesUpTo(n - 1, totalPieces, p, total) + PieceSize(n - 1, totalPieces, p, total)
  }

  /** The sizes of all pieces sum to the total. */
  lemma {:induction false} SizesSumToTotal(s: seq<byte>, p: nat, n: nat)
    requires p > 0 && s != [] && n <= NumPieces(|s|, p)
    ensures NumPieces(|s|, p) > 0
    ensures SizesUpTo(n, NumPieces(|s|, p), p, |s|) == Min(n * p, |s|)
    ensures n == NumPieces(|s|, p) ==> SizesUpTo(n, NumPieces(|s|, p), p, |s|) == |s|
  {
    PieceStarts(|s|, p, 0);
    PieceStarts(|s|, p, n);
    if n > 0 {
      SizesSumToTotal(s, p, n - 1);
      PieceSizeIsLength(s, p, n - 1);
      assert n * p == (n - 1) * p + p;
    }
  }
}
