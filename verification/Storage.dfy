/** Piece storage: a list of files read and written as one flat byte string cut into pieces. */
module Storage {
  import opened Bytes

  /** The flat string of a file list ("metainfo files" section of BEP 3). */
  function Flat(files: seq<seq<byte>>): seq<byte> {
    if files == [] then [] else files[0] + Flat(files[1..])
  }

  /** Where file `i` begins in the flat string. */
  function Offset(files: seq<seq<byte>>, i: nat): nat
    requires i <= |files|
  {
    if i == 0 then 0 else Offset(files, i - 1) + |files[i - 1]|
  }

  lemma {:induction false} FlatOfAppend(a: seq<seq<byte>>, b: seq<seq<byte>>)
    ensures Flat(a + b) == Flat(a) + Flat(b)
  {
    if a == [] {
      assert a + b == b;
    } else {
      assert (a + b)[1..] == a[1..] + b;
      FlatOfAppend(a[1..], b);
    }
  }

  /** The flat string, split at file `i`. */
  lemma {:induction false} FlatSplit(files: seq<seq<byte>>, i: nat)
    requires i <= |files|
    ensures |Flat(files[..i])| == Offset(files, i)
    ensures Flat(files) == Flat(files[..i]) + Flat(files[i..])
    ensures i < |files| ==> Flat(files[i..]) == files[i] + Flat(files[i + 1..])
  {
    FlatOfAppend(files[..i], files[i..]);
    assert files[..i] + files[i..] == files;
    if i < |files| { assert files[i..][1..] == files[i + 1..]; }
    if i > 0 {
      FlatSplit(files, i - 1);
      FlatOfAppend(files[..i - 1], [files[i - 1]]);
      assert files[..i] == files[..i - 1] + [files[i - 1]];
      assert [files[i - 1]][1..] == [];
    }
  }

  /** Byte `k` of file `i` is byte `Offset(i) + k` of the flat string. */
  lemma {:induction false} FlatAt(files: seq<seq<byte>>, i: nat)
    requires i < |files|
    ensures Offset(files, i) + |files[i]| <= |Flat(files)|
    ensures Flat(files)[Offset(files, i)..Offset(files, i) + |files[i]|] == files[i]
  {
    FlatSplit(files, i);
  }

  /** Piece `i` of a string cut into pieces of length `p`; the last one may be shorter. */
  function Piece(s: seq<byte>, p: nat, i: nat): seq<byte>
    requires i * p <= |s|
  {
    s[i * p..Min(i * p + p, |s|)]
  }

  function NumPieces(total: nat, p: nat): nat
    requires p > 0
  {
    (total + p - 1) / p
  }

  lemma {:induction false} PieceOf(x: nat, p: nat, i: nat)
    requires p > 0
    ensures x / p == i <==> i * p <= x < i * p + p
  {
    var q := x / p;
    assert x == q * p + x % p;
    if q < i {
      TimesMonotone(q + 1, i, p);
      assert (q + 1) * p == q * p + p;
    } else if i < q {
      TimesMonotone(i + 1, q, p);
      assert (i + 1) * p == i * p + p;
    }
  }

  lemma {:induction false} PieceStarts(total: nat, p: nat, i: nat)
    requires p > 0
    ensures i < NumPieces(total, p) <==> i * p < total
  {
    var n := NumPieces(total, p);
    PieceOf(total + p - 1, p, n);
    if i < n {
      TimesMonotone(i + 1, n, p);
      assert (i + 1) * p == i * p + p;
    } else {
      TimesMonotone(n, i, p);
    }
  }

  datatype FileChunk = FileChunk(startByte: nat, length: nat)

  datatype Overlap = Overlap(fileOffset: nat, bufferOffset: nat, size: nat)

  /** `MultiFileHandler::piece_overlap`. */
  function PieceOverlap(target: FileChunk, pieceStart: nat, pieceEnd: nat): Option<Overlap>
    requires pieceStart <= pieceEnd
  {
    var fileEnd := target.startByte + target.length;
    if target.startByte >= pieceEnd || fileEnd <= pieceStart then None
    else
      var overlapStart := Max(target.startByte, pieceStart);
      var overlapEnd := Min(pieceEnd, fileEnd);
      Some(Overlap(overlapStart - target.startByte, overlapStart - pieceStart, overlapEnd - overlapStart))
  }

  /** The overlap is the intersection of the two byte ranges, named once from the file and once from the buffer. */
  lemma {:induction false} OverlapIsIntersection(target: FileChunk, pieceStart: nat, pieceEnd: nat, k: nat)
    requires pieceStart <= pieceEnd && k < target.length
    ensures var o := PieceOverlap(target, pieceStart, pieceEnd);
            && (pieceStart <= target.startByte + k < pieceEnd <==>
                  o.Some? && o.value.fileOffset <= k < o.value.fileOffset + o.value.size)
            && (o.Some? ==> && o.value.fileOffset + o.value.size <= target.length
                            && o.value.bufferOffset + o.value.size <= pieceEnd - pieceStart
                            && target.startByte + o.value.fileOffset == pieceStart + o.value.bufferOffset)
            && (o.Some? && pieceStart < pieceEnd ==> o.value.size > 0)
  {
  }

  /** `s`, which starts at absolute position `start`, with the bytes `data` written at absolute position `at`. */
  function Over(s: seq<byte>, start: nat, at: nat, data: seq<byte>): (r: seq<byte>)
    ensures |r| == |s|
    ensures forall k :: 0 <= k < |s| ==> r[k] == if at <= start + k < at + |data| then data[start + k - at] else s[k]
  {
    seq(|s|, k requires 0 <= k < |s| => if at <= start + k < at + |data| then data[start + k - at] else s[k])
  }

  /** A file after its share of a piece has been written with `write_at`. */
  function WrittenFile(file: seq<byte>, target: FileChunk, at: nat, data: seq<byte>): seq<byte>
    requires |file| == target.length
  {
    match PieceOverlap(target, at, at + |data|)
    case None => file
    case Some(o) => CopyInto(file, o.fileOffset, data[o.bufferOffset..o.bufferOffset + o.size])
  }

  /** `copy_from_slice` and `write_at`. */
  function CopyInto(s: seq<byte>, at: nat, chunk: seq<byte>): (r: seq<byte>)
    requires at + |chunk| <= |s|
    ensures |r| == |s|
  {
    s[..at] + chunk + s[at + |chunk|..]
  }

  lemma {:induction false} CopiedAt(s: seq<byte>, at: nat, chunk: seq<byte>, k: nat)
    requires at + |chunk| <= |s| && k < |s|
    ensures CopyInto(s, at, chunk)[k] == if at <= k < at + |chunk| then chunk[k - at] else s[k]
  {
    if k < at {
      assert (s[..at] + chunk)[k] == s[k];
    } else if k < at + |chunk| {
      assert (s[..at] + chunk)[k] == chunk[k - at];
    } else {
      assert s[at + |chunk|..][k - (at + |chunk|)] == s[k];
    }
  }

  lemma {:induction false} WrittenAt(file: seq<byte>, target: FileChunk, at: nat, data: seq<byte>, k: nat)
    requires |file| == target.length && k < |file|
    ensures |WrittenFile(file, target, at, data)| == |file|
    ensures var x := target.startByte + k;
            WrittenFile(file, target, at, data)[k] == if at <= x < at + |data| then data[x - at] else file[k]
  {
    OverlapIsIntersection(target, at, at + |data|, k);
    match PieceOverlap(target, at, at + |data|)
    case None =>
    case Some(o) =>
      CopiedAt(file, o.fileOffset, data[o.bufferOffset..o.bufferOffset + o.size], k);
  }

  lemma {:induction false} WrittenFileIsOver(file: seq<byte>, target: FileChunk, at: nat, data: seq<byte>)
    requires |file| == target.length
    ensures WrittenFile(file, target, at, data) == Over(file, target.startByte, at, data)
  {
    var w, o := WrittenFile(file, target, at, data), Over(file, target.startByte, at, data);
    assert |w| == |file|;
    forall k | 0 <= k < |file| ensures w[k] == o[k] {
      WrittenAt(file, target, at, data, k);
    }
  }

  /** Writing a file's share again changes nothing. */
  lemma {:induction false} WrittenTwice(file: seq<byte>, target: FileChunk, at: nat, data: seq<byte>)
    requires |file| == target.length
    ensures |WrittenFile(file, target, at, data)| == |file|
    ensures WrittenFile(WrittenFile(file, target, at, data), target, at, data) == WrittenFile(file, target, at, data)
  {
    WrittenFileIsOver(file, target, at, data);
    WrittenFileIsOver(Over(file, target.startByte, at, data), target, at, data);
  }

  /** The chunks of a file list: where each begins and how long it is. */
  ghost predicate IsLayout(targets: seq<FileChunk>, files: seq<seq<byte>>) {
    && |targets| == |files|
    && forall i {:trigger targets[i]} {:trigger files[i]} :: 0 <= i < |files| ==>
         targets[i] == FileChunk(Offset(files, i), |files[i]|)
  }

  /** Every file of `after` is that of `before` with its share of `data` written. */
  ghost predicate AllWritten(before: seq<seq<byte>>, after: seq<seq<byte>>, targets: seq<FileChunk>, at: nat,
                             data: seq<byte>)
    requires IsLayout(targets, before)
  {
    |after| == |before| && forall i :: 0 <= i < |before| ==> after[i] == WrittenFile(before[i], targets[i], at, data)
  }

  lemma {:induction false} FlatPrefixStep(files: seq<seq<byte>>, n: nat)
    requires n < |files|
    ensures Flat(files[..n + 1]) == Flat(files[..n]) + files[n]
  {
    assert files[..n + 1] == files[..n] + [files[n]];
    FlatOfAppend(files[..n], [files[n]]);
    assert [files[n]][1..] == [] && Flat([files[n]]) == files[n];
  }

  lemma {:induction false} OverAppend(s: seq<byte>, t: seq<byte>, at: nat, data: seq<byte>)
    ensures Over(s + t, 0, at, data) == Over(s, 0, at, data) + Over(t, |s|, at, data)
  {
  }

  /** Writing each file's share is one write into the flat string. */
  lemma {:induction false} WritesAreOneSplice(before: seq<seq<byte>>, after: seq<seq<byte>>, targets: seq<FileChunk>,
                                              at: nat, data: seq<byte>, n: nat)
    requires IsLayout(targets, before) && AllWritten(before, after, targets, at, data) && n <= |before|
    ensures Flat(after[..n]) == Over(Flat(before[..n]), 0, at, data)
    ensures Offset(after, n) == Offset(before, n)
  {
    if n > 0 {
      var m := n - 1;
      WritesAreOneSplice(before, after, targets, at, data, m);
      FlatPrefixStep(before, m);
      FlatPrefixStep(after, m);
      FlatSplit(before, m);
      WrittenFileIsOver(before[m], targets[m], at, data);
      OverAppend(Flat(before[..m]), before[m], at, data);
    }
  }

  lemma {:induction false} WrittenKeepsLayout(before: seq<seq<byte>>, after: seq<seq<byte>>, targets: seq<FileChunk>,
                                              at: nat, data: seq<byte>)
    requires IsLayout(targets, before) && AllWritten(before, after, targets, at, data)
    ensures IsLayout(targets, after) && Flat(after) == Over(Flat(before), 0, at, data)
  {
    WritesAreOneSplice(before, after, targets, at, data, |before|);
    assert before[..|before|] == before && after[..|before|] == after;
    forall i | 0 <= i < |after| ensures targets[i] == FileChunk(Offset(after, i), |after[i]|) {
      WritesAreOneSplice(before, after, targets, at, data, i);
      WrittenFileIsOver(before[i], targets[i], at, data);
    }
  }

  /** A buffer for the bytes `pieceStart .. pieceEnd`, after one file's share has been read into it. */
  function ReadShare(buffer: seq<byte>, file: seq<byte>, target: FileChunk, pieceStart: nat,
                     pieceEnd: nat): (r: seq<byte>)
    requires |file| == target.length && pieceStart <= pieceEnd && |buffer| == pieceEnd - pieceStart
    ensures |r| == |buffer|
  {
    match PieceOverlap(target, pieceStart, pieceEnd)
    case None => buffer
    case Some(o) => CopyInto(buffer, o.bufferOffset, file[o.fileOffset..o.fileOffset + o.size])
  }

  /** How much of the buffer is final once all files before position `offset` have been read. */
  function Filled(pieceStart: nat, pieceEnd: nat, offset: nat): nat
    requires pieceStart <= pieceEnd
  {
    Max(Min(pieceEnd, offset) - pieceStart, 0)
  }

  ghost predicate ReadUpTo(flat: seq<byte>, buffer: seq<byte>, pieceStart: nat, pieceEnd: nat, offset: nat)
    requires pieceStart <= pieceEnd <= |flat| && |buffer| == pieceEnd - pieceStart
  {
    var m := Filled(pieceStart, pieceEnd, offset);
    buffer[..m] == flat[pieceStart..pieceStart + m]
  }

  lemma {:induction false} SubSlice(s: seq<byte>, a: nat, b: nat, i: nat, j: nat)
    requires a <= b <= |s| && i <= j <= b - a
    ensures s[a..b][i..j] == s[a + i..a + j]
  {
    var t := s[a..b];
    forall k | i <= k < j ensures t[k] == s[a + k] {}
    assert t[i..j] == s[a + i..a + j];
  }

  lemma {:induction false} Joined(s: seq<byte>, a: nat, b: nat, c: nat)
    requires a <= b <= c <= |s|
    ensures s[a..b] + s[b..c] == s[a..c]
  {
  }

  lemma {:induction false} ReadStep(flat: seq<byte>, buffer: seq<byte>, file: seq<byte>, target: FileChunk,
                                    pieceStart: nat, pieceEnd: nat)
    requires pieceStart <= pieceEnd <= |flat| && |buffer| == pieceEnd - pieceStart
    requires |file| == target.length && target.startByte + target.length <= |flat|
    requires flat[target.startByte..target.startByte + target.length] == file
    requires ReadUpTo(flat, buffer, pieceStart, pieceEnd, target.startByte)
    ensures ReadUpTo(flat, ReadShare(buffer, file, target, pieceStart, pieceEnd), pieceStart, pieceEnd,
                     target.startByte + target.length)
  {
    match PieceOverlap(target, pieceStart, pieceEnd)
    case None =>
    case Some(o) => ReadOverlap(flat, buffer, target, pieceStart, pieceEnd, o);
  }

  lemma {:induction false} ReadOverlap(flat: seq<byte>, buffer: seq<byte>, target: FileChunk, pieceStart: nat,
                                       pieceEnd: nat, o: Overlap)
    requires pieceStart <= pieceEnd <= |flat| && |buffer| == pieceEnd - pieceStart
    requires target.startByte + target.length <= |flat| && PieceOverlap(target, pieceStart, pieceEnd) == Some(o)
    requires ReadUpTo(flat, buffer, pieceStart, pieceEnd, target.startByte)
    ensures var file := flat[target.startByte..target.startByte + target.length];
            ReadUpTo(flat, CopyInto(buffer, o.bufferOffset, file[o.fileOffset..o.fileOffset + o.size]),
                     pieceStart, pieceEnd, target.startByte + target.length)
  {
    var from, to := pieceStart + o.bufferOffset, pieceStart + o.bufferOffset + o.size;
    var chunk := flat[target.startByte..target.startByte + target.length][o.fileOffset..o.fileOffset + o.size];
    SubSlice(flat, target.startByte, target.startByte + target.length, o.fileOffset, o.fileOffset + o.size);
    assert chunk == flat[from..to];
    Joined(flat, pieceStart, from, to);
    Prefixed(buffer, o.bufferOffset, chunk);
    assert Filled(pieceStart, pieceEnd, target.startByte) == o.bufferOffset;
    assert Filled(pieceStart, pieceEnd, target.startByte + target.length) == o.bufferOffset + o.size;
  }

  lemma {:induction false} Prefixed(buffer: seq<byte>, at: nat, chunk: seq<byte>)
    requires at + |chunk| <= |buffer|
    ensures CopyInto(buffer, at, chunk)[..at + |chunk|] == buffer[..at] + chunk
  {
  }

  /** Reading file `i` of a layout. */
  lemma {:induction false} ReadNext(files: seq<seq<byte>>, targets: seq<FileChunk>, i: nat, buffer: seq<byte>,
                                    pieceStart: nat, pieceEnd: nat)
    requires IsLayout(targets, files) && i < |files|
    requires pieceStart <= pieceEnd <= |Flat(files)| && |buffer| == pieceEnd - pieceStart
    requires ReadUpTo(Flat(files), buffer, pieceStart, pieceEnd, Offset(files, i))
    ensures |files[i]| == targets[i].length
    ensures ReadUpTo(Flat(files), ReadShare(buffer, files[i], targets[i], pieceStart, pieceEnd), pieceStart, pieceEnd,
                     Offset(files, i + 1))
  {
    FlatAt(files, i);
    ReadStep(Flat(files), buffer, files[i], targets[i], pieceStart, pieceEnd);
  }

  lemma {:induction false} AllRead(flat: seq<byte>, buffer: seq<byte>, pieceStart: nat, pieceEnd: nat)
    requires pieceStart <= pieceEnd <= |flat| && |buffer| == pieceEnd - pieceStart
    requires ReadUpTo(flat, buffer, pieceStart, pieceEnd, |flat|)
    ensures buffer == flat[pieceStart..pieceEnd]
  {
    assert buffer[..|buffer|] == buffer;
  }

  datatype ChunkError = OutOfBounds(index: nat)

  /** Every file of `n` occurs in the order, and nothing else. */
  ghost predicate Covers(order: seq<nat>, n: nat) {
    (forall k :: 0 <= k < |order| ==> order[k] < n) && forall i: nat :: i < n ==> i in order
  }

  lemma {:induction false} SameOffsets(a: seq<seq<byte>>, b: seq<seq<byte>>, n: nat)
    requires |a| == |b| && n <= |a| && forall i :: 0 <= i < |a| ==> |a[i]| == |b[i]|
    ensures Offset(a, n) == Offset(b, n)
  {
    if n > 0 { SameOffsets(a, b, n - 1); }
  }

  /** A layout depends on the lengths only. */
  lemma {:induction false} SameLayout(targets: seq<FileChunk>, a: seq<seq<byte>>, b: seq<seq<byte>>)
    requires IsLayout(targets, a) && |a| == |b| && forall i :: 0 <= i < |a| ==> |a[i]| == |b[i]|
    ensures IsLayout(targets, b) && |Flat(b)| == |Flat(a)|
  {
    forall i | 0 <= i < |b| ensures targets[i] == FileChunk(Offset(b, i), |b[i]|) {
      SameOffsets(a, b, i);
    }
    SameOffsets(a, b, |a|);
    FlatSplit(a, |a|);
    FlatSplit(b, |b|);
    assert a[..|a|] == a && b[..|b|] == b;
  }

  class MultiFileHandler {
    var files: seq<seq<byte>>
    const targets: seq<FileChunk>
    const pieceLength: nat
    const totalLength: nat

    ghost predicate Valid()
      reads this
    {
      IsLayout(targets, files) && totalLength == |Flat(files)|
    }

    /** The layout loop of `seed` and `download`. */
    static method Layout(files: seq<seq<byte>>) returns (targets: seq<FileChunk>, total: nat)
      ensures IsLayout(targets, files) && total == |Flat(files)|
    {
      targets := [];
      var currentOffset := 0;
      for i := 0 to |files|
        invariant |targets| == i && currentOffset == Offset(files, i)
        invariant forall j {:trigger targets[j]} :: 0 <= j < i ==> targets[j] == FileChunk(Offset(files, j), |files[j]|)
      {
        targets := targets + [FileChunk(currentOffset, |files[i]|)];
        currentOffset := currentOffset + |files[i]|;
      }
      FlatSplit(files, |files|);
      assert files[..|files|] == files;
      total := currentOffset;
    }

    /** `files` are the opened files, for a download preallocated. */
    constructor (pieceLength: nat, files: seq<seq<byte>>)
      ensures Valid() && this.files == files && this.pieceLength == pieceLength
    {
      var chunks, total := Layout(files);
      this.files, targets, this.pieceLength, totalLength := files, chunks, pieceLength, total;
    }

    /** `MultiFileHandler::read_piece`: the bytes of the flat string. */
    method ReadPiece(index: nat) returns (r: Result<seq<byte>, ChunkError>)
      requires Valid()
      ensures index * pieceLength >= |Flat(files)| ==> r == Err(OutOfBounds(index))
      ensures index * pieceLength < |Flat(files)| ==> r == Ok(Piece(Flat(files), pieceLength, index))
    {
      var pieceStart := index * pieceLength;
      var pieceEnd := Min(pieceStart + pieceLength, totalLength);
      if pieceStart >= totalLength {
        return Err(OutOfBounds(index));
      }
      var buffer := ReadRange(pieceStart, pieceEnd);
      return Ok(buffer);
    }

    /** The loop over the targets, filling the buffer. */
    method ReadRange(pieceStart: nat, pieceEnd: nat) returns (buffer: seq<byte>)
      requires Valid() && pieceStart <= pieceEnd <= totalLength
      ensures buffer == Flat(files)[pieceStart..pieceEnd]
    {
      buffer := seq(pieceEnd - pieceStart, _ => 0 as byte);
      for i := 0 to |targets|
        invariant |buffer| == pieceEnd - pieceStart
        invariant ReadUpTo(Flat(files), buffer, pieceStart, pieceEnd, Offset(files, i))
      {
        ReadNext(files, targets, i, buffer, pieceStart, pieceEnd);
        buffer := ReadShare(buffer, files[i], targets[i], pieceStart, pieceEnd);
      }
      FlatSplit(files, |files|);
      assert files[..|files|] == files;
      AllRead(Flat(files), buffer, pieceStart, pieceEnd);
    }

    /** `MultiFileHandler::write_piece`, its per-file writes run in the order given: one write into the flat string, cut
        off at its end. */
    method WritePiece(index: nat, data: seq<byte>, order: seq<nat>) returns (r: Result<(), ChunkError>)
      requires Valid()
      requires Covers(order, |targets|)
      modifies this`files
      ensures Valid()
      ensures index * pieceLength >= totalLength ==> r == Err(OutOfBounds(index)) && files == old(files)
      ensures index * pieceLength < totalLength ==>
                r == Ok(()) && Flat(files) == Over(old(Flat(files)), 0, index * pieceLength, data)
    {
      var pieceStart := index * pieceLength;
      if pieceStart >= totalLength {
        return Err(OutOfBounds(index));
      }
      WriteRange(pieceStart, data, order);
      return Ok(());
    }

    /** One of the per-file writes, a task of its own. */
    method WriteShare(pieceStart: nat, data: seq<byte>, file: nat)
      requires Valid() && file < |targets|
      modifies this`files
      ensures Valid() && |files| == |old(files)|
      ensures files == old(files)[file := WrittenFile(old(files)[file], targets[file], pieceStart, data)]
    {
      WrittenFileIsOver(files[file], targets[file], pieceStart, data);
      ghost var before := files;
      files := files[file := WrittenFile(files[file], targets[file], pieceStart, data)];
      SameLayout(targets, before, files);
    }

    /** All of them, in some order. */
    method WriteRange(pieceStart: nat, data: seq<byte>, order: seq<nat>)
      requires Valid() && Covers(order, |targets|)
      modifies this`files
      ensures Valid() && Flat(files) == Over(old(Flat(files)), 0, pieceStart, data)
    {
      ghost var before := files;
      for k := 0 to |order|
        invariant Valid() && |files| == |before|
        invariant SomeWritten(before, files, targets, pieceStart, data, order[..k])
      {
        assert order[..k + 1] == order[..k] + [order[k]];
        OneMoreWritten(before, files, targets, pieceStart, data, order[..k], order[k]);
        WriteShare(pieceStart, data, order[k]);
      }
      assert order[..|order|] == order;
      WrittenKeepsLayout(before, files, targets, pieceStart, data);
    }
  }

  /** The files after some of the per-file writes. */
  ghost predicate SomeWritten(before: seq<seq<byte>>, now: seq<seq<byte>>, targets: seq<FileChunk>, at: nat,
                              data: seq<byte>, done: seq<nat>)
    requires IsLayout(targets, before)
  {
    && |now| == |before|
    && forall i :: 0 <= i < |before| ==>
         now[i] == if i in done then WrittenFile(before[i], targets[i], at, data) else before[i]
  }

  lemma {:induction false} OneMoreWritten(before: seq<seq<byte>>, now: seq<seq<byte>>, targets: seq<FileChunk>, at: nat,
                                          data: seq<byte>, done: seq<nat>, i: nat)
    requires IsLayout(targets, before) && SomeWritten(before, now, targets, at, data, done) && i < |before|
    ensures |now[i]| == targets[i].length
    ensures SomeWritten(before, now[i := WrittenFile(now[i], targets[i], at, data)], targets, at, data, done + [i])
  {
    WrittenTwice(before[i], targets[i], at, data);
  }

  /** Piece `i` starts within a string of length `n`. */
  predicate Starts(i: nat, p: nat, n: nat) {
    i * p < n
  }

  ghost predicate AllStart(writes: seq<(nat, nat)>, p: nat, n: nat) {
    forall k :: 0 <= k < |writes| ==> Starts(writes[k].0, p, n)
  }

  /** One file, lying at `start`, after a run of writes of pieces of `data`, each to one file: those to file `f`. */
  function FileAfter(file: seq<byte>, start: nat, data: seq<byte>, p: nat, writes: seq<(nat, nat)>,
                     f: nat): (r: seq<byte>)
    requires AllStart(writes, p, |data|)
    ensures |r| == |file|
  {
    if writes == [] then file
    else
      var n := |writes| - 1;
      var before := FileAfter(file, start, data, p, writes[..n], f);
      assert Starts(writes[n].0, p, |data|);
      if writes[n].1 != f then before else Over(before, start, writes[n].0 * p, Piece(data, p, writes[n].0))
  }

  /** Whatever the order, the interleaving and the repetitions: a byte whose piece was written to its file is the
      data's, any other is untouched. */
  lemma {:induction false} AnyOrder(file: seq<byte>, start: nat, data: seq<byte>, p: nat, writes: seq<(nat, nat)>,
                                    f: nat, k: nat)
    requires p > 0 && k < |file| && start + |file| <= |data|
    requires AllStart(writes, p, |data|)
    ensures var x := start + k;
            FileAfter(file, start, data, p, writes, f)[k] == if (x / p, f) in writes then data[x] else file[k]
    decreases |writes|
  {
    if writes != [] {
      var n, x := |writes| - 1, start + k;
      var i := writes[n].0;
      assert Starts(i, p, |data|);
      AnyOrder(file, start, data, p, writes[..n], f, k);
      PieceOf(x, p, i);
      assert writes == writes[..n] + [writes[n]];
      if x / p == i && writes[n].1 == f {
        assert writes[n] == (x / p, f);
        assert Piece(data, p, i)[x - i * p] == data[x];
      }
    }
  }

  /** The write of piece `i` to file `f` is one that has to be made: the two overlap. */
  predicate Due(targets: seq<FileChunk>, data: seq<byte>, p: nat, i: nat, f: nat) {
    f < |targets| && i * p < |data| && PieceOverlap(targets[f], i * p, i * p + |Piece(data, p, i)|).Some?
  }

  /** Once every due write to a file has been made it holds its slice of the data. */
  lemma {:induction false} EveryPieceWritten(file: seq<byte>, targets: seq<FileChunk>, data: seq<byte>, p: nat,
                                             writes: seq<(nat, nat)>, f: nat)
    requires p > 0 && f < |targets| && |file| == targets[f].length && targets[f].startByte + |file| <= |data|
    requires AllStart(writes, p, |data|)
    requires forall i: nat :: Due(targets, data, p, i, f) ==> (i, f) in writes
    ensures var start := targets[f].startByte;
            FileAfter(file, start, data, p, writes, f) == data[start..start + |file|]
  {
    var start := targets[f].startByte;
    forall k | 0 <= k < |file| ensures FileAfter(file, start, data, p, writes, f)[k] == data[start + k] {
      var x := start + k;
      var i := x / p;
      AnyOrder(file, start, data, p, writes, f, k);
      PieceOf(x, p, i);
      OverlapIsIntersection(targets[f], i * p, i * p + |Piece(data, p, i)|, k);
      assert Due(targets, data, p, i, f);
    }
  }

  /** File `i` is the slice of the data at its place. */
  ghost predicate HoldsSlice(files: seq<seq<byte>>, data: seq<byte>, i: nat) {
    && i < |files| && Offset(files, i) + |files[i]| <= |data|
    && files[i] == data[Offset(files, i)..Offset(files, i) + |files[i]|]
  }

  /** Files that hold their slices of the data are the data. */
  lemma {:induction false} FlatOfSlices(files: seq<seq<byte>>, data: seq<byte>, n: nat)
    requires n <= |files| && forall i: nat :: i < |files| ==> HoldsSlice(files, data, i)
    ensures Offset(files, n) <= |data| && Flat(files[..n]) == data[..Offset(files, n)]
  {
    if n > 0 {
      var m := n - 1;
      FlatOfSlices(files, data, m);
      FlatPrefixStep(files, m);
      assert HoldsSlice(files, data, m);
      Joined(data, 0, Offset(files, m), Offset(files, n));
    }
  }

  /** A whole download, its per-file writes run as tasks of their own: in any order, those of different pieces
      interleaved. Once all that are due have been made the files are the data. */
  method Download(handler: MultiFileHandler, data: seq<byte>, writes: seq<(nat, nat)>)
    requires handler.Valid() && handler.pieceLength > 0 && handler.totalLength == |data|
    requires AllStart(writes, handler.pieceLength, |data|)
    requires forall k :: 0 <= k < |writes| ==> writes[k].1 < |handler.targets|
    requires forall i: nat, f: nat :: Due(handler.targets, data, handler.pieceLength, i, f) ==> (i, f) in writes
    modifies handler`files
    ensures handler.Valid() && Flat(handler.files) == data
  {
    var p := handler.pieceLength;
    ghost var before := handler.files;
    for k := 0 to |writes|
      invariant handler.Valid() && |handler.files| == |before|
      invariant WritesDone(before, handler.files, handler.targets, data, p, writes[..k])
    {
      var (i, f) := writes[k];
      assert Starts(i, p, |data|);
      assert writes[..k + 1] == writes[..k] + [(i, f)];
      WrittenFileIsOver(handler.files[f], handler.targets[f], i * p, Piece(data, p, i));
      OneMoreDone(before, handler.files, handler.targets, data, p, writes[..k], i, f,
                  WrittenFile(handler.files[f], handler.targets[f], i * p, Piece(data, p, i)));
      handler.WriteShare(i * p, Piece(data, p, i), f);
    }
    assert writes[..|writes|] == writes;
    AllDone(before, handler.files, handler.targets, data, p, writes);
  }

  ghost predicate WritesDone(before: seq<seq<byte>>, now: seq<seq<byte>>, targets: seq<FileChunk>, data: seq<byte>,
                             p: nat, writes: seq<(nat, nat)>)
    requires |targets| == |before| && AllStart(writes, p, |data|)
  {
    && |now| == |before|
    && forall f :: 0 <= f < |now| ==> now[f] == FileAfter(before[f], targets[f].startByte, data, p, writes, f)
  }

  lemma {:induction false} FileAfterMore(file: seq<byte>, start: nat, data: seq<byte>, p: nat, writes: seq<(nat, nat)>,
                                         i: nat, f: nat, g: nat)
    requires AllStart(writes, p, |data|) && Starts(i, p, |data|)
    ensures AllStart(writes + [(i, f)], p, |data|)
    ensures var before := FileAfter(file, start, data, p, writes, g);
            FileAfter(file, start, data, p, writes + [(i, f)], g) ==
            if f == g then Over(before, start, i * p, Piece(data, p, i)) else before
  {
    assert (writes + [(i, f)])[..|writes|] == writes;
  }

  lemma {:induction false} OneMoreDone(before: seq<seq<byte>>, now: seq<seq<byte>>, targets: seq<FileChunk>,
                                       data: seq<byte>, p: nat, writes: seq<(nat, nat)>, i: nat, f: nat,
                                       more: seq<byte>)
    requires |targets| == |before| && f < |before| && AllStart(writes, p, |data|) && Starts(i, p, |data|)
    requires WritesDone(before, now, targets, data, p, writes)
    requires more == Over(now[f], targets[f].startByte, i * p, Piece(data, p, i))
    ensures AllStart(writes + [(i, f)], p, |data|)
    ensures WritesDone(before, now[f := more], targets, data, p, writes + [(i, f)])
  {
    forall g | 0 <= g < |before|
      ensures AllStart(writes + [(i, f)], p, |data|)
      ensures now[f := more][g] == FileAfter(before[g], targets[g].startByte, data, p, writes + [(i, f)], g)
    {
      FileAfterMore(before[g], targets[g].startByte, data, p, writes, i, f, g);
    }
  }

  lemma {:induction false} AllDone(before: seq<seq<byte>>, now: seq<seq<byte>>, targets: seq<FileChunk>,
                                   data: seq<byte>, p: nat, writes: seq<(nat, nat)>)
    requires IsLayout(targets, before) && IsLayout(targets, now) && p > 0 && |Flat(now)| == |data|
    requires AllStart(writes, p, |data|)
    requires forall i: nat, f: nat :: Due(targets, data, p, i, f) ==> (i, f) in writes
    requires WritesDone(before, now, targets, data, p, writes)
    ensures Flat(now) == data
  {
    forall f: nat | f < |now| ensures HoldsSlice(now, data, f) {
      FlatAt(now, f);
      assert targets[f] == FileChunk(Offset(now, f), |now[f]|);
      EveryPieceWritten(before[f], targets, data, p, writes, f);
    }
    FlatOfSlices(now, data, |now|);
    FlatSplit(now, |now|);
    assert now[..|now|] == now;
  }
}
