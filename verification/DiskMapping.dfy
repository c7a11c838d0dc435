/** The mapping from pieces to file spans, and the disk tasks that read and write pieces through it. */
module DiskMapping {
  import opened ByteStrings
  import opened Metainfo
  import opened InfoLengths
  import opened DiskSpans

  datatype MappedFile = MappedFile(offsetInTorrent: u64, length: u64)

  /** The running 64-bit offsets of the files: they wrap. */
  function Mapped(lengths: seq<nat>): seq<MappedFile>
    requires forall i :: 0 <= i < |lengths| ==> lengths[i] <= I64_MAX
  {
    seq(|lengths|, i requires 0 <= i < |lengths| => MappedFile(Wrap64(Sum(lengths[..i])), lengths[i]))
  }

  lemma {:induction false} SumIsTotal(lengths: seq<nat>)
    ensures Sum(lengths) == Total(lengths)
  {
    if lengths != [] {
      var n := |lengths| - 1;
      SumIsTotal(lengths[..n]);
      TotalSnoc(lengths, n);
    }
  }

  lemma {:induction false} TotalSnoc(lengths: seq<nat>, n: nat)
    requires n < |lengths|
    ensures Total(lengths[..n + 1]) == Total(lengths[..n]) + lengths[n]
    ensures n + 1 == |lengths| ==> Total(lengths) == Total(lengths[..n]) + lengths[n]
  {
    if n > 0 {
      TotalSnoc(lengths[1..], n - 1);
      assert lengths[..n + 1][1..] == lengths[1..][..n];
      assert lengths[..n][1..] == lengths[1..][..n - 1];
    } else {
      assert lengths[..1][1..] == [];
    }
    if n + 1 == |lengths| {
      assert lengths[..n + 1] == lengths;
    }
  }

  lemma SumEmpty()
    ensures Sum([]) == 0
  {
  }

  lemma SumSnoc(lengths: seq<nat>, i: nat)
    requires i < |lengths|
    ensures Sum(lengths[..i + 1]) == Sum(lengths[..i]) + lengths[i]
  {
    assert lengths[..i + 1][..i] == lengths[..i];
  }

  /** As long as the true offset is below 2^63, the 64-bit arithmetic on file i does not wrap. */
  lemma NoWrap(lengths: seq<nat>, i: nat)
    requires forall k :: 0 <= k < |lengths| ==> lengths[k] <= I64_MAX
    requires i < |lengths| && Sum(lengths[..i]) <= I64_MAX
    ensures var file := Mapped(lengths)[i];
      && file.offsetInTorrent == Sum(lengths[..i]) && file.length == lengths[i]
      && Wrap64(file.offsetInTorrent + file.length) == Sum(lengths[..i]) + lengths[i]
  {
  }

  class FileMapping {
    const lengths: seq<nat>
    const files: seq<MappedFile>
    const pieceLength: nat
    const totalLength: nat

    ghost predicate Valid() {
      && MappingBounds(lengths, totalLength)
      && files == Mapped(lengths)
      && 0 < pieceLength <= MAX_PIECE_LENGTH
    }

    constructor (info: Info)
      requires MappingBounds(info.files.Lengths(), info.totalLength) && 0 < info.pieceLength <= MAX_PIECE_LENGTH
      ensures Valid() && lengths == info.files.Lengths()
      ensures pieceLength == info.pieceLength && totalLength == info.totalLength
    {
      hide Sum;
      var all := info.files.Lengths();
      SumEmpty();
      assert all[..0] == [];
      var mapped: seq<MappedFile> := [];
      var offset: u64 := 0;
      for i := 0 to |all|
        invariant |mapped| == i && offset == Wrap64(Sum(all[..i]))
        invariant forall k :: 0 <= k < i ==> mapped[k] == MappedFile(Wrap64(Sum(all[..k])), all[k])
      {
        mapped := mapped + [MappedFile(offset, all[i])];
        SumSnoc(all, i);
        offset := Wrap64(offset + all[i]);
      }
      lengths, files := all, mapped;
      pieceLength, totalLength := info.pieceLength, info.totalLength;
    }

    /** The spans a piece covers; none when it starts past the end. */
    method PieceSpans(piece: u32) returns (spans: seq<FileSpan>)
      requires Valid()
      ensures spans == if PieceStart(pieceLength, piece) >= totalLength then []
                       else Cover(lengths, PieceStart(pieceLength, piece), PieceEnd(pieceLength, totalLength, piece), 0)
    {
      var pieceStart := piece * pieceLength;
      if pieceStart > USIZE_MAX {
        return [];
      }
      if pieceStart >= totalLength {
        return [];
      }
      var pieceEnd := if pieceStart + pieceLength < totalLength then pieceStart + pieceLength else totalLength;
      spans := SpansOf(pieceStart, pieceEnd);
    }

    method SpansOf(pieceStart: nat, pieceEnd: nat) returns (spans: seq<FileSpan>)
      requires Valid() && pieceStart < pieceEnd <= totalLength
      ensures spans == Cover(lengths, pieceStart, pieceEnd, 0)
    {
      hide OnTrack, Cover, Sum, Wrap64;
      var remaining := pieceEnd - pieceStart;
      var current: nat := pieceStart;
      spans := [];
      ghost var goal := Cover(lengths, pieceStart, pieceEnd, 0);
      ghost var base := 0;
      TrackStart(lengths, pieceStart, pieceEnd);
      var i := 0;
      while i < |files|
        invariant i <= |files|
        invariant current < pieceEnd && remaining == pieceEnd - current
        invariant OnTrack(lengths, i, base, current, pieceEnd, spans, goal)
      {
        var file := files[i];
        Visit(lengths, i, base, current, pieceEnd, spans, goal);
        var fileEnd := Wrap64(file.offsetInTorrent + file.length);
        if current >= fileEnd {
          base := fileEnd;
          i := i + 1;
          continue;
        }
        if current < file.offsetInTorrent {
          break;
        }
        var offsetInFile := current - file.offsetInTorrent;
        var available := file.length - offsetInFile;
        var spanLength := if remaining < available then remaining else available;
        spans := spans + [FileSpan(i, offsetInFile, spanLength)];
        current := current + spanLength;
        remaining := remaining - spanLength;
        if remaining == 0 {
          return;
        }
        base := fileEnd;
        i := i + 1;
      }
      TrackEnd(lengths, base, current, pieceEnd, spans, goal);
    }
  }

  /** The loop over the files stands at file i, with `spans` found and the rest of the goal ahead. */
  ghost predicate OnTrack(lengths: seq<nat>, i: nat, base: nat, current: nat, pieceEnd: nat,
                          spans: seq<FileSpan>, goal: seq<FileSpan>)
  {
    && i <= |lengths| && base == Sum(lengths[..i]) && base <= current < pieceEnd
    && goal == spans + Cover(lengths[i..], current - base, pieceEnd - base, i)
  }

  lemma TrackStart(lengths: seq<nat>, start: nat, end: nat)
    requires start < end
    ensures OnTrack(lengths, 0, 0, start, end, [], Cover(lengths, start, end, 0))
  {
    SumEmpty();
    assert lengths[..0] == [] && lengths[0..] == lengths;
  }

  lemma TrackEnd(lengths: seq<nat>, base: nat, current: nat, pieceEnd: nat, spans: seq<FileSpan>, goal: seq<FileSpan>)
    requires OnTrack(lengths, |lengths|, base, current, pieceEnd, spans, goal)
    ensures goal == spans
  {
    CoverNothing();
  }

  /** One turn of the loop: the file is skipped, or one span of it is taken. Nothing wraps on the way. */
  lemma Visit(lengths: seq<nat>, i: nat, base: nat, current: nat, pieceEnd: nat,
              spans: seq<FileSpan>, goal: seq<FileSpan>)
    requires forall k :: 0 <= k < |lengths| ==> lengths[k] <= I64_MAX
    requires i < |lengths| && pieceEnd <= I64_MAX
    requires OnTrack(lengths, i, base, current, pieceEnd, spans, goal)
    ensures var file := Mapped(lengths)[i];
      var fileEnd := Wrap64(file.offsetInTorrent + file.length);
      && file.offsetInTorrent <= current && file.length == lengths[i]
      && fileEnd == file.offsetInTorrent + file.length
      && (current >= fileEnd ==> OnTrack(lengths, i + 1, fileEnd, current, pieceEnd, spans, goal))
      && (current < fileEnd < pieceEnd ==>
            OnTrack(lengths, i + 1, fileEnd, fileEnd, pieceEnd,
                    spans + [FileSpan(i, current - file.offsetInTorrent, fileEnd - current)], goal))
      && (current < fileEnd && pieceEnd <= fileEnd ==>
            goal == spans + [FileSpan(i, current - file.offsetInTorrent, pieceEnd - current)])
  {
    NoWrap(lengths, i);
    SumSnoc(lengths, i);
    hide Cover, Sum, Wrap64;
    FileStep(lengths, i, current - base, pieceEnd - base);
    var fileEnd := base + lengths[i];
    var next := lengths[i + 1..];
    if current < fileEnd {
      if pieceEnd <= fileEnd {
        CoverEmpty(next, current - fileEnd, pieceEnd - fileEnd, i + 1);
      } else {
        var span := FileSpan(i, current - base, fileEnd - current);
        assert spans + ([span] + Cover(next, 0, pieceEnd - fileEnd, i + 1))
            == spans + [span] + Cover(next, 0, pieceEnd - fileEnd, i + 1);
      }
    }
  }

  /** What file i contributes to a range that starts at or after it. */
  lemma FileStep(lengths: seq<nat>, i: nat, lo: nat, hi: nat)
    requires i < |lengths| && lo < hi
    ensures var L: int := lengths[i];
      var next := lengths[i + 1..];
      Cover(lengths[i..], lo, hi, i)
        == if lo >= L then Cover(next, lo - L, hi - L, i + 1)
           else if hi <= L then [FileSpan(i, lo, hi - lo)] + Cover(next, lo - L, hi - L, i + 1)
           else [FileSpan(i, lo, L - lo)] + Cover(next, 0, hi - L, i + 1)
  {
    assert lengths[i..][1..] == lengths[i + 1..];
    var L: int := lengths[i];
    if lo < L {
      CoverClamp(lengths[i + 1..], lo - L, hi - L, i + 1);
    }
  }

  lemma TotalNothing()
    ensures TotalOf([]) == 0
    ensures forall files :: AllInside(files, []) && ReadSpans(files, []) == []
  {
  }

  lemma CoverNothing()
    ensures forall lo, hi, i :: Cover([], lo, hi, i) == []
  {
  }

  // -------------------------------------------------------------- the disk

  /** The spans of a piece over files of the given lengths. */
  function SpansFor(lengths: seq<nat>, pieceLength: nat, total: nat, i: nat): seq<FileSpan> {
    Cover(lengths, PieceStart(pieceLength, i), PieceEnd(pieceLength, total, i), 0)
  }

  /** Files on disk, each pre-allocated to its full length. */
  class Disk {
    var files: seq<Bytes>

    constructor (files: seq<Bytes>)
      ensures this.files == files
    {
      this.files := files;
    }

    /** `write_piece_blocking`: seek and write, span by span. */
    method WriteSpansTo(spans: seq<FileSpan>, data: Bytes)
      requires AllInside(files, spans) && TotalOf(spans) <= |data|
      modifies this
      ensures files == WriteSpans(old(files), spans, data)
    {
      hide Splice;
      var dataOffset := 0;
      for i := 0 to |spans|
        invariant dataOffset <= |data|
        invariant AllInside(files, spans[i..]) && TotalOf(spans[i..]) <= |data| - dataOffset
        invariant WriteSpans(files, spans[i..], data[dataOffset..]) == WriteSpans(old(files), spans, data)
      {
        var span := spans[i];
        assert spans[i..] == [span] + spans[i + 1..];
        WriteSpansStep(files, span, spans[i + 1..], data[dataOffset..]);
        var end := dataOffset + span.length;
        assert data[dataOffset..][..span.length] == data[dataOffset..end];
        assert data[dataOffset..][span.length..] == data[end..];
        files := WriteSpan(files, span, data[dataOffset..end]);
        dataOffset := end;
      }
    }

    /** `read_piece_blocking`: fill a buffer of the asked length, span by span. */
    method ReadSpansFrom(spans: seq<FileSpan>, totalLength: nat) returns (r: Bytes)
      requires AllInside(files, spans) && TotalOf(spans) == totalLength
      ensures r == ReadSpans(files, spans) && |r| == totalLength
    {
      hide ReadSpans, TotalOf;
      TotalNothing();
      assert spans[0..] == spans;
      var data := new byte[totalLength](_ => 0);
      var dataOffset := 0;
      ghost var goal := ReadSpans(files, spans);
      for i := 0 to |spans|
        invariant dataOffset + TotalOf(spans[i..]) == totalLength
        invariant AllInside(files, spans[i..])
        invariant goal == data[..dataOffset] + ReadSpans(files, spans[i..])
      {
        var span := spans[i];
        assert spans[i..] == [span] + spans[i + 1..];
        ReadSpansStep(files, span, spans[i + 1..]);
        var end := dataOffset + span.length;
        ghost var before := data[..dataOffset];
        forall k | dataOffset <= k < end {
          data[k] := files[span.fileIndex][span.offset + (k - dataOffset)];
        }
        assert data[..end] == before + files[span.fileIndex][span.offset..span.offset + span.length];
        dataOffset := end;
      }
      assert spans[|spans|..] == [];
      assert goal == data[..dataOffset] + [];
      r := data[..];
      assert data[..dataOffset] == data[..];
    }

    /** The disk task's write of one verified piece. */
    method WritePiece(mapping: FileMapping, piece: u32, data: Bytes)
      requires mapping.Valid() && mapping.lengths == Lengths(files)
      requires PieceStart(mapping.pieceLength, piece) < mapping.totalLength
      requires |data| == PieceEnd(mapping.pieceLength, mapping.totalLength, piece) - PieceStart(mapping.pieceLength, piece)
      modifies this
      ensures Lengths(files) == old(Lengths(files))
      ensures |Flat(files)| == |Flat(old(files))|
      ensures PieceEnd(mapping.pieceLength, mapping.totalLength, piece) <= |Flat(files)|
      ensures Flat(files) == WritePieceFlat(old(Flat(files)), mapping.pieceLength, piece, data)
    {
      var start, end := PieceStart(mapping.pieceLength, piece), PieceEnd(mapping.pieceLength, mapping.totalLength, piece);
      var spans := mapping.PieceSpans(piece);
      FlatLength(files);
      SumIsTotal(mapping.lengths);
      WriteIsFlatWhole(files, start, end, data);
      WriteSpansTo(spans, data);
      FlatLength(files);
    }

    /** The disk task's read of one piece. */
    method ReadPiece(mapping: FileMapping, piece: u32, length: nat) returns (r: Bytes)
      requires mapping.Valid() && mapping.lengths == Lengths(files)
      requires PieceStart(mapping.pieceLength, piece) < mapping.totalLength
      requires length == PieceEnd(mapping.pieceLength, mapping.totalLength, piece) - PieceStart(mapping.pieceLength, piece)
      ensures mapping.totalLength <= |Flat(files)|
      ensures r == PieceOf(Flat(files), mapping.pieceLength, mapping.totalLength, piece)
    {
      var start, end := PieceStart(mapping.pieceLength, piece), PieceEnd(mapping.pieceLength, mapping.totalLength, piece);
      var spans := mapping.PieceSpans(piece);
      FlatLength(files);
      SumIsTotal(mapping.lengths);
      ReadIsFlatWhole(files, start, end);
      r := ReadSpansFrom(spans, length);
    }
  }

  // ------------------------------------------------ pieces of the flat array

  /** The bytes of piece i in the flat array. */
  function PieceOf(flat: Bytes, pieceLength: nat, total: nat, i: nat): Bytes
    requires PieceStart(pieceLength, i) <= total <= |flat|
  {
    flat[PieceStart(pieceLength, i)..PieceEnd(pieceLength, total, i)]
  }

  function WritePieceFlat(flat: Bytes, pieceLength: nat, i: nat, data: Bytes): (r: Bytes)
    requires PieceStart(pieceLength, i) + |data| <= |flat|
    ensures |r| == |flat|
  {
    Splice(flat, PieceStart(pieceLength, i), data)
  }

  lemma ReadIsFlatWhole(files: seq<Bytes>, lo: nat, hi: nat)
    requires lo <= hi <= |Flat(files)|
    ensures AllInside(files, Cover(Lengths(files), lo, hi, 0))
    ensures ReadSpans(files, Cover(Lengths(files), lo, hi, 0)) == Flat(files)[lo..hi]
    ensures TotalOf(Cover(Lengths(files), lo, hi, 0)) == hi - lo
  {
    assert files[0..] == files;
    ReadIsFlat(files, 0, lo, hi);
    PartOf(Flat(files), lo, hi);
    FlatLength(files);
    CoverTotal(Lengths(files), lo, hi, 0);
  }

  lemma WriteIsFlatWhole(files: seq<Bytes>, lo: nat, hi: nat, data: Bytes)
    requires lo < hi <= |Flat(files)| && |data| == hi - lo
    ensures AllInside(files, Cover(Lengths(files), lo, hi, 0))
    ensures TotalOf(Cover(Lengths(files), lo, hi, 0)) == |data|
    ensures Flat(WriteSpans(files, Cover(Lengths(files), lo, hi, 0), data)) == Splice(Flat(files), lo, data)
  {
    assert files[0..] == files;
    WriteIsFlat(files, 0, lo, hi, data);
    var r := WriteSpans(files, Cover(Lengths(files), lo, hi, 0), data);
    assert r[0..] == r;
  }

  /** Writing one piece: it then reads back as written, and every other piece reads as before. */
  lemma ReadAfterWrite(flat: Bytes, n: nat, pieceLength: nat, total: nat, i: nat, data: Bytes, j: nat)
    requires Tiled(n, pieceLength, total) && total <= |flat| && i < n && j < n
    requires |data| == PieceEnd(pieceLength, total, i) - PieceStart(pieceLength, i)
    ensures PieceStart(pieceLength, i) + |data| <= |flat| && PieceStart(pieceLength, j) <= total
    ensures PieceOf(WritePieceFlat(flat, pieceLength, i, data), pieceLength, total, j)
         == if i == j then data else PieceOf(flat, pieceLength, total, j)
  {
    hide Tiled, PieceStart, PieceEnd, Splice;
    PieceBounds(n, pieceLength, total, i);
    PieceBounds(n, pieceLength, total, j);
    if i < j {
      PiecesDisjoint(n, pieceLength, total, i, j);
    } else if j < i {
      PiecesDisjoint(n, pieceLength, total, j, i);
    }
    SpliceReads(flat, PieceStart(pieceLength, i), data, PieceStart(pieceLength, j), PieceEnd(pieceLength, total, j));
  }

  /** Writes of distinct pieces commute. */
  lemma WritesCommute(flat: Bytes, n: nat, pieceLength: nat, total: nat, i: nat, a: Bytes, j: nat, b: Bytes)
    requires Tiled(n, pieceLength, total) && total <= |flat| && i < j < n
    requires |a| == PieceEnd(pieceLength, total, i) - PieceStart(pieceLength, i)
    requires |b| == PieceEnd(pieceLength, total, j) - PieceStart(pieceLength, j)
    ensures PieceStart(pieceLength, i) + |a| <= |flat| && PieceStart(pieceLength, j) + |b| <= |flat|
    ensures WritePieceFlat(WritePieceFlat(flat, pieceLength, i, a), pieceLength, j, b)
         == WritePieceFlat(WritePieceFlat(flat, pieceLength, j, b), pieceLength, i, a)
  {
    hide Tiled, PieceStart, PieceEnd;
    PieceBounds(n, pieceLength, total, i);
    PieceBounds(n, pieceLength, total, j);
    PiecesDisjoint(n, pieceLength, total, i, j);
  }

  /**
   * The same of the files: from the same files, x by writing piece i and then j, y the other way round,
   * as the disk's piece writes change the flat array and keep the lengths.
   */
  lemma FileWritesCommute(files: seq<Bytes>, x: seq<Bytes>, y: seq<Bytes>, n: nat, pieceLength: nat, total: nat,
                          i: nat, a: Bytes, j: nat, b: Bytes)
    requires Tiled(n, pieceLength, total) && total <= |Flat(files)| && i < n && j < n && i != j
    requires |a| == PieceEnd(pieceLength, total, i) - PieceStart(pieceLength, i)
    requires |b| == PieceEnd(pieceLength, total, j) - PieceStart(pieceLength, j)
    requires PieceStart(pieceLength, i) + |a| <= |Flat(files)| && PieceStart(pieceLength, j) + |b| <= |Flat(files)|
    requires Lengths(x) == Lengths(files) == Lengths(y)
    requires Flat(x) == WritePieceFlat(WritePieceFlat(Flat(files), pieceLength, i, a), pieceLength, j, b)
    requires Flat(y) == WritePieceFlat(WritePieceFlat(Flat(files), pieceLength, j, b), pieceLength, i, a)
    ensures x == y
  {
    hide Tiled, PieceStart, PieceEnd, WritePieceFlat, Flat, Lengths;
    if i < j {
      WritesCommute(Flat(files), n, pieceLength, total, i, a, j, b);
    } else {
      WritesCommute(Flat(files), n, pieceLength, total, j, b, i, a);
    }
    FlatInjective(x, y);
  }

  /** The spans of a piece lie inside their files and add up to its length. */
  lemma PieceSpansTotal(info: Info, n: nat, i: nat)
    requires MappingBounds(info.files.Lengths(), info.totalLength)
    requires Tiled(n, info.pieceLength, info.totalLength) && i < n
    ensures var spans := SpansFor(info.files.Lengths(), info.pieceLength, info.totalLength, i);
      && (forall a :: 0 <= a < |spans| ==> WithinFile(info.files.Lengths(), 0, spans[a]))
      && TotalOf(spans) == PickerPieceLength(n, info.pieceLength, info.totalLength, i)
  {
    hide Tiled, PieceStart, PieceEnd, Cover, PickerPieceLength;
    var lengths, pl, total := info.files.Lengths(), info.pieceLength, info.totalLength;
    SumIsTotal(lengths);
    PieceBounds(n, pl, total, i);
    CoverInside(lengths, PieceStart(pl, i), PieceEnd(pl, total, i), 0);
    CoverTotal(lengths, PieceStart(pl, i), PieceEnd(pl, total, i), 0);
  }

  /** Spans of different pieces share no byte. */
  lemma PieceSpansDisjoint(info: Info, n: nat, i: nat, j: nat, a: nat, b: nat)
    requires Tiled(n, info.pieceLength, info.totalLength) && i < n && j < n && i != j
    requires a < |SpansFor(info.files.Lengths(), info.pieceLength, info.totalLength, i)|
    requires b < |SpansFor(info.files.Lengths(), info.pieceLength, info.totalLength, j)|
    ensures !Overlap(SpansFor(info.files.Lengths(), info.pieceLength, info.totalLength, i)[a],
                     SpansFor(info.files.Lengths(), info.pieceLength, info.totalLength, j)[b])
  {
    hide Tiled, PieceStart, PieceEnd, Cover;
    var lengths, pl, total := info.files.Lengths(), info.pieceLength, info.totalLength;
    PieceBounds(n, pl, total, i);
    PieceBounds(n, pl, total, j);
    if i < j {
      PiecesDisjoint(n, pl, total, i, j);
      RangesDisjoint(lengths, PieceStart(pl, i), PieceEnd(pl, total, i), PieceStart(pl, j), PieceEnd(pl, total, j), a, b);
    } else {
      PiecesDisjoint(n, pl, total, j, i);
      RangesDisjoint(lengths, PieceStart(pl, j), PieceEnd(pl, total, j), PieceStart(pl, i), PieceEnd(pl, total, i), b, a);
    }
  }
}
