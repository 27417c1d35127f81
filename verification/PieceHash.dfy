/** The streaming hasher: files read in short reads of any size, cut into pieces across file boundaries. */
module PieceHash {
  import opened Bytes
  import opened Storage

  datatype Splitter = Splitter(pieces: seq<(nat, seq<byte>)>, buffer: seq<byte>, buffered: nat)

  /** The splitter has consumed `s`: full pieces sent, the rest at the front of the buffer. */
  ghost predicate SplitOk(t: Splitter, p: nat, s: seq<byte>) {
    && |t.buffer| == p && t.buffered < p
    && |s| == |t.pieces| * p + t.buffered
    && t.buffer[..t.buffered] == s[|t.pieces| * p..]
    && FullPieces(t.pieces, p, s)
  }

  ghost predicate FullPieces(pieces: seq<(nat, seq<byte>)>, p: nat, s: seq<byte>) {
    forall j :: 0 <= j < |pieces| ==> j * p + p <= |s| && pieces[j] == (j, s[j * p..j * p + p])
  }

  /** One read of `chunk` into the free end of the buffer, which is sent and replaced when full. */
  function Absorb(t: Splitter, p: nat, chunk: seq<byte>): Splitter
    requires |t.buffer| == p && t.buffered + |chunk| <= p
  {
    var buffer := CopyInto(t.buffer, t.buffered, chunk);
    if t.buffered + |chunk| == p then Splitter(t.pieces + [(|t.pieces|, buffer)], seq(p, _ => 0), 0)
    else Splitter(t.pieces, buffer, t.buffered + |chunk|)
  }

  lemma {:induction false} FullPiecesMore(pieces: seq<(nat, seq<byte>)>, p: nat, s: seq<byte>, chunk: seq<byte>)
    requires FullPieces(pieces, p, s)
    ensures FullPieces(pieces, p, s + chunk)
  {
    forall j | 0 <= j < |pieces| ensures j * p + p <= |s + chunk| && pieces[j] == (j, (s + chunk)[j * p..j * p + p]) {
      assert (s + chunk)[j * p..j * p + p] == s[j * p..j * p + p];
    }
  }

  lemma {:induction false} FullPiecesPush(pieces: seq<(nat, seq<byte>)>, p: nat, s: seq<byte>, buffer: seq<byte>)
    requires FullPieces(pieces, p, s) && |s| == |pieces| * p + p && buffer == s[|pieces| * p..]
    ensures FullPieces(pieces + [(|pieces|, buffer)], p, s)
  {
    assert s[|pieces| * p..] == s[|pieces| * p..|pieces| * p + p];
  }

  lemma {:induction false} BufferHolds(t: Splitter, p: nat, s: seq<byte>, chunk: seq<byte>)
    requires SplitOk(t, p, s) && t.buffered + |chunk| <= p
    ensures CopyInto(t.buffer, t.buffered, chunk)[..t.buffered + |chunk|] == (s + chunk)[|t.pieces| * p..]
  {
    assert (s + chunk)[|t.pieces| * p..] == s[|t.pieces| * p..] + chunk;
  }

  lemma {:induction false} AbsorbKeeps(t: Splitter, p: nat, s: seq<byte>, chunk: seq<byte>)
    requires SplitOk(t, p, s) && t.buffered + |chunk| <= p
    ensures SplitOk(Absorb(t, p, chunk), p, s + chunk)
  {
    FullPiecesMore(t.pieces, p, s, chunk);
    BufferHolds(t, p, s, chunk);
    if t.buffered + |chunk| == p {
      var buffer := CopyInto(t.buffer, t.buffered, chunk);
      assert buffer[..p] == buffer;
      FullPiecesPush(t.pieces, p, s + chunk, buffer);
      assert (|t.pieces| + 1) * p == |t.pieces| * p + p;
    }
  }

  /** The messages sent are the pieces of `flat`, all of them, in order. */
  ghost predicate AllPieces(pieces: seq<(nat, seq<byte>)>, flat: seq<byte>, p: nat)
    requires p > 0
  {
    && |pieces| == NumPieces(|flat|, p)
    && forall j :: 0 <= j < |pieces| ==> j * p <= |flat| && pieces[j] == (j, Piece(flat, p, j))
  }

  lemma {:induction false} CountPieces(n: nat, b: nat, p: nat)
    requires b < p
    ensures NumPieces(n * p + b, p) == if b > 0 then n + 1 else n
  {
    var total := n * p + b;
    assert (n + 1) * p == n * p + p;
    PieceStarts(total, p, n);
    PieceStarts(total, p, n + 1);
    if n > 0 {
      assert (n - 1) * p == n * p - p;
      PieceStarts(total, p, n - 1);
    }
  }

  lemma {:induction false} FinishKeeps(t: Splitter, p: nat, s: seq<byte>)
    requires SplitOk(t, p, s)
    ensures AllPieces(if t.buffered > 0 then t.pieces + [(|t.pieces|, t.buffer[..t.buffered])] else t.pieces, s, p)
  {
    var n := |t.pieces|;
    CountPieces(n, t.buffered, p);
    forall j | 0 <= j < n ensures j * p <= |s| && t.pieces[j] == (j, Piece(s, p, j)) {
      assert j * p + p <= |s|;
    }
    assert t.buffer[..t.buffered] == Piece(s, p, n);
  }

  /** One file: `reader.read` returns any nonzero number of bytes that fit, until the end. */
  method SplitFile(file: seq<byte>, p: nat, counts: nat -> nat, from: Splitter, ghost s: seq<byte>)
    returns (t: Splitter)
    requires SplitOk(from, p, s)
    ensures SplitOk(t, p, s + file)
  {
    t := from;
    var position, k := 0, 0;
    assert s + file[..0] == s;
    while position < |file|
      invariant 0 <= position <= |file|
      invariant SplitOk(t, p, s + file[..position])
    {
      var room := Min(p - t.buffered, |file| - position);
      var count := 1 + counts(k) % room;
      var chunk := file[position..position + count];
      AbsorbKeeps(t, p, s + file[..position], chunk);
      assert s + file[..position] + chunk == s + file[..position + count];
      t := Absorb(t, p, chunk);
      position, k := position + count, k + 1;
    }
    assert file[..|file|] == file;
  }

  /** `file_handle`: whatever the short reads, the pieces sent are those of the flat string. A piece length of zero
      makes every read empty and sends nothing. */
  method FileHandle(files: seq<seq<byte>>, pieceLength: nat, counts: (nat, nat) -> nat)
    returns (pieces: seq<(nat, seq<byte>)>)
    ensures pieceLength == 0 ==> pieces == []
    ensures pieceLength > 0 ==> AllPieces(pieces, Flat(files), pieceLength)
  {
    if pieceLength == 0 {
      return [];
    }
    var t := Splitter([], seq(pieceLength, _ => 0), 0);
    for i := 0 to |files|
      invariant SplitOk(t, pieceLength, Flat(files[..i]))
    {
      FlatPrefixStep(files, i);
      t := SplitFile(files[i], pieceLength, k => counts(i, k), t, Flat(files[..i]));
    }
    assert files[..|files|] == files;
    FinishKeeps(t, pieceLength, Flat(files));
    pieces := t.pieces;
    if t.buffered > 0 {
      pieces := pieces + [(|t.pieces|, t.buffer[..t.buffered])];
    }
  }
}
