/** Piece boundaries: the several last-piece computations of the engine and what they add up to. */
module InfoLengths {
  import opened ByteStrings
  import opened Wrappers
  import opened Bencode
  import opened Metainfo

  const BLOCK_SIZE: nat := 16384
  const MAX_PIECES: nat := 0xFFFF_FFFF

  /** `Info::piece_length`. */
  function InfoPieceLength(info: Info, index: nat): nat
    requires info.pieceLength > 0
  {
    var totalPieces := |info.pieces| % 0x1_0000_0000;
    if index == (if totalPieces == 0 then 0 else totalPieces - 1) then
      var remainder := info.totalLength % info.pieceLength;
      if remainder == 0 then info.pieceLength else remainder
    else info.pieceLength
  }

  /** `resume::piece_len`. */
  function ResumePieceLength(info: Info, index: nat): nat
    requires info.pieceLength > 0
  {
    if index + 1 == |info.pieces| then
      var remainder := info.totalLength % info.pieceLength;
      if remainder == 0 then info.pieceLength else remainder
    else info.pieceLength
  }

  /** `PiecePicker::actual_piece_length`. */
  function PickerPieceLength(numPieces: nat, pieceLength: nat, totalLength: nat, index: nat): nat
    requires pieceLength > 0
  {
    if index == numPieces - 1 then
      var remainder := totalLength % pieceLength;
      if remainder == 0 then pieceLength else remainder
    else pieceLength
  }

  /** Where piece i starts and ends in the torrent, as the file mapping computes it. */
  function PieceStart(pieceLength: nat, i: nat): nat {
    i * pieceLength
  }

  function PieceEnd(pieceLength: nat, total: nat, i: nat): nat {
    if PieceStart(pieceLength, i) + pieceLength < total then PieceStart(pieceLength, i) + pieceLength else total
  }

  /** Shape of a torrent: at least one byte, and as many pieces as it takes. */
  ghost predicate Tiled(n: nat, pieceLength: nat, total: nat) {
    pieceLength > 0 && total > 0 && n == DivCeil(total, pieceLength)
  }

  lemma MulMono(a: nat, b: nat, c: nat)
    requires a <= b
    ensures a * c <= b * c
  {
  }

  lemma QuotientIs(total: nat, pieceLength: nat, q: nat, r: nat)
    requires pieceLength > 0 && r < pieceLength && total == q * pieceLength + r
    ensures total / pieceLength == q && total % pieceLength == r
  {
    var q', r' := total / pieceLength, total % pieceLength;
    assert total == q' * pieceLength + r';
    assert (q + 1) * pieceLength == q * pieceLength + pieceLength;
    assert (q' + 1) * pieceLength == q' * pieceLength + pieceLength;
    if q < q' {
      MulMono(q + 1, q', pieceLength);
    } else if q' < q {
      MulMono(q' + 1, q, pieceLength);
    }
  }

  /** n pieces are just enough: the last one starts inside the torrent and the next would not. */
  lemma TiledBounds(n: nat, pieceLength: nat, total: nat)
    requires Tiled(n, pieceLength, total)
    ensures n > 0 && (n - 1) * pieceLength < total <= n * pieceLength
    ensures total - (n - 1) * pieceLength
         == if total % pieceLength == 0 then pieceLength else total % pieceLength
  {
    var q, r := total / pieceLength, total % pieceLength;
    assert total == q * pieceLength + r;
    assert (q + 1) * pieceLength == q * pieceLength + pieceLength;
    if r == 0 {
      QuotientIs(total + pieceLength - 1, pieceLength, q, pieceLength - 1);
      assert n == q;
      assert q == 0 ==> total == 0;
      assert (q - 1) * pieceLength == q * pieceLength - pieceLength;
    } else {
      QuotientIs(total + pieceLength - 1, pieceLength, q + 1, r - 1);
      assert n == q + 1;
    }
  }

  /** Piece i lies within the torrent, and its length is what every computation gives. */
  lemma PieceBounds(n: nat, pieceLength: nat, total: nat, i: nat)
    requires Tiled(n, pieceLength, total) && i < n
    ensures PieceStart(pieceLength, i) < PieceEnd(pieceLength, total, i) <= total
    ensures PieceEnd(pieceLength, total, i) - PieceStart(pieceLength, i)
         == PickerPieceLength(n, pieceLength, total, i) <= pieceLength
    ensures i + 1 < n ==> PieceEnd(pieceLength, total, i) == PieceStart(pieceLength, i + 1)
    ensures i + 1 == n ==> PieceEnd(pieceLength, total, i) == total
  {
    TiledBounds(n, pieceLength, total);
    assert (i + 1) * pieceLength == i * pieceLength + pieceLength;
    if i + 1 < n {
      MulMono(i + 1, n - 1, pieceLength);
    } else {
      assert n * pieceLength == (n - 1) * pieceLength + pieceLength;
    }
  }

  lemma PiecesDisjoint(n: nat, pieceLength: nat, total: nat, i: nat, j: nat)
    requires Tiled(n, pieceLength, total) && i < j < n
    ensures PieceEnd(pieceLength, total, i) <= PieceStart(pieceLength, j)
  {
    PieceBounds(n, pieceLength, total, i);
    assert (i + 1) * pieceLength == i * pieceLength + pieceLength;
    MulMono(i + 1, j, pieceLength);
  }

  function SumLengths(n: nat, pieceLength: nat, total: nat, k: nat): nat
    requires pieceLength > 0
  {
    if k == 0 then 0 else SumLengths(n, pieceLength, total, k - 1) + PickerPieceLength(n, pieceLength, total, k - 1)
  }

  lemma {:induction false} PiecesSum(n: nat, pieceLength: nat, total: nat, k: nat)
    requires Tiled(n, pieceLength, total) && k <= n
    ensures SumLengths(n, pieceLength, total, k) == if k == n then total else PieceStart(pieceLength, k)
  {
    hide Tiled, PickerPieceLength;
    TiledIs(n, pieceLength, total);
    if k > 0 {
      PiecesSum(n, pieceLength, total, k - 1);
      PieceBounds(n, pieceLength, total, k - 1);
    }
  }

  lemma TiledIs(n: nat, pieceLength: nat, total: nat)
    requires Tiled(n, pieceLength, total)
    ensures pieceLength > 0 && n > 0
  {
    TiledBounds(n, pieceLength, total);
  }

  /** The progress figure the session reports for k verified pieces. */
  function ReportedBytes(pieceLength: nat, total: nat, k: nat): nat {
    if k * pieceLength < total then k * pieceLength else total
  }

  /** For every info dictionary that is accepted: all piece-length computations agree on every index. */
  lemma ParsedInfoLengths(val: BValue, info: Info, index: nat)
    requires ParseInfo(val) == Ok(info) && |info.pieces| <= MAX_PIECES
    ensures Tiled(|info.pieces|, info.pieceLength, info.totalLength)
    ensures InfoPieceLength(info, index) == ResumePieceLength(info, index)
         == PickerPieceLength(|info.pieces|, info.pieceLength, info.totalLength, index)
    ensures index < |info.pieces| ==>
      InfoPieceLength(info, index)
        == PieceEnd(info.pieceLength, info.totalLength, index) - PieceStart(info.pieceLength, index)
    ensures SumLengths(|info.pieces|, info.pieceLength, info.totalLength, |info.pieces|) == info.totalLength
  {
    ParsedIsTiled(val, info);
    hide ParseInfo, Tiled, InfoPieceLength, ResumePieceLength, PickerPieceLength, PieceStart, PieceEnd, SumLengths;
    var n := |info.pieces|;
    TiledIs(n, info.pieceLength, info.totalLength);
    SameLengths(info, index);
    PiecesSum(n, info.pieceLength, info.totalLength, n);
    if index < n {
      PieceBounds(n, info.pieceLength, info.totalLength, index);
    }
  }

  lemma SameLengths(info: Info, index: nat)
    requires info.pieceLength > 0 && 0 < |info.pieces| <= MAX_PIECES
    ensures InfoPieceLength(info, index) == ResumePieceLength(info, index)
         == PickerPieceLength(|info.pieces|, info.pieceLength, info.totalLength, index)
  {
  }

  lemma ParsedIsTiled(val: BValue, info: Info)
    requires ParseInfo(val) == Ok(info)
    ensures Tiled(|info.pieces|, info.pieceLength, info.totalLength)
    ensures info.pieceLength <= MAX_PIECE_LENGTH
    ensures info.totalLength == TotalLength(info.files)
  {
  }

  /** The reported progress reaches the total exactly when every piece is done. */
  lemma ReportedIsTotalIff(n: nat, pieceLength: nat, total: nat, k: nat)
    requires Tiled(n, pieceLength, total) && k <= n
    ensures ReportedBytes(pieceLength, total, k) == total <==> k == n
  {
    TiledBounds(n, pieceLength, total);
    if k < n {
      MulMono(k, n - 1, pieceLength);
    }
  }

  // ----------------------------------------------------- parsed file lengths

  lemma {:induction false} ParsedFileLengths(files: seq<BValue>, entries: seq<FileEntry>)
    requires ParseFiles(files) == Ok(entries)
    ensures forall i :: 0 <= i < |entries| ==> entries[i].length <= I64_MAX
  {
    if files != [] {
      var f := ParseFile(files[0]).value;
      assert f.length <= I64_MAX;
      ParsedFileLengths(files[1..], ParseFiles(files[1..]).value);
    }
  }

  lemma {:induction false} SumPositive(xs: seq<nat>)
    ensures forall i :: 0 <= i < |xs| ==> xs[i] <= Sum(xs)
  {
    if xs != [] {
      SumPositive(xs[..|xs| - 1]);
      assert forall i :: 0 <= i < |xs| - 1 ==> xs[i] == xs[..|xs| - 1][i];
    }
  }

  /** What the file mapping may rely on: lengths fit 63 bits, and the files cover the total length. */
  ghost predicate MappingBounds(lengths: seq<nat>, total: nat) {
    && (forall i :: 0 <= i < |lengths| ==> lengths[i] <= I64_MAX)
    && total <= Sum(lengths)
    && total <= I64_MAX
  }

  lemma ParsedMapping(val: BValue, info: Info)
    requires ParseInfo(val) == Ok(info) && |info.pieces| <= MAX_PIECES
    ensures MappingBounds(info.files.Lengths(), info.totalLength)
  {
    ParsedIsTiled(val, info);
    TiledBounds(|info.pieces|, info.pieceLength, info.totalLength);
    ParsedLayout(val, info);
    MulMono(|info.pieces|, MAX_PIECES, info.pieceLength);
    MulMono(info.pieceLength, MAX_PIECE_LENGTH, MAX_PIECES);
    var pl: nat := info.pieceLength;
    assert MAX_PIECES * pl == pl * MAX_PIECES;
  }

  lemma ParsedLayout(val: BValue, info: Info)
    requires ParseInfo(val) == Ok(info)
    ensures forall i :: 0 <= i < |info.files.Lengths()| ==> info.files.Lengths()[i] <= I64_MAX
  {
    assert ParseLayout(val) == Ok(info.files);
    match val.Get(KEY_FILES)
    case Some(List(files)) => ParsedFileLengths(files, ParseFiles(files).value);
    case _ =>
  }
}
