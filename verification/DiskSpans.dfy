/** Files laid end to end as one flat array, and the spans of the files that a byte range covers. */
module DiskSpans {
  import opened ByteStrings

  datatype FileSpan = FileSpan(fileIndex: nat, offset: nat, length: nat)

  /** The files' bytes in torrent order. */
  function Flat(files: seq<Bytes>): Bytes {
    if files == [] then [] else files[0] + Flat(files[1..])
  }

  function Lengths(files: seq<Bytes>): seq<nat> {
    seq(|files|, i requires 0 <= i < |files| => |files[i]|)
  }

  function Max(a: int, b: int): int {
    if a > b then a else b
  }

  function Min(a: int, b: int): int {
    if a < b then a else b
  }

  /**
   * The non-empty intersections of the range [lo, hi) with the files, the first of which has index i.
   * Positions count from the start of that file, so they may be negative.
   */
  function Cover(lengths: seq<nat>, lo: int, hi: int, i: nat): seq<FileSpan>
    decreases |lengths|
  {
    if lengths == [] then []
    else
      var a, b := Max(lo, 0), Min(hi, lengths[0]);
      var rest := Cover(lengths[1..], lo - lengths[0], hi - lengths[0], i + 1);
      if a < b then [FileSpan(i, a, b - a)] + rest else rest
  }

  function TotalOf(spans: seq<FileSpan>): nat {
    if spans == [] then 0 else spans[0].length + TotalOf(spans[1..])
  }

  function Total(lengths: seq<nat>): nat {
    if lengths == [] then 0 else lengths[0] + Total(lengths[1..])
  }

  lemma {:induction false} FlatLength(files: seq<Bytes>)
    ensures |Flat(files)| == Total(Lengths(files))
  {
    if files != [] {
      FlatLength(files[1..]);
      assert Lengths(files)[1..] == Lengths(files[1..]);
    }
  }

  /** Files of known lengths are determined by their flat array. */
  lemma {:induction false} FlatInjective(files: seq<Bytes>, others: seq<Bytes>)
    requires Lengths(files) == Lengths(others) && Flat(files) == Flat(others)
    ensures files == others
    decreases |files|
  {
    assert |files| == |Lengths(files)| && |others| == |Lengths(others)|;
    if files != [] {
      assert Lengths(files)[0] == Lengths(others)[0];
      assert files[0] == Flat(files)[..|files[0]|] && others[0] == Flat(others)[..|others[0]|];
      assert Flat(files[1..]) == Flat(files)[|files[0]|..] && Flat(others[1..]) == Flat(others)[|others[0]|..];
      assert Lengths(files)[1..] == Lengths(files[1..]) && Lengths(others)[1..] == Lengths(others[1..]);
      FlatInjective(files[1..], others[1..]);
      assert files == [files[0]] + files[1..] && others == [others[0]] + others[1..];
    }
  }

  lemma {:induction false} CoverEmpty(lengths: seq<nat>, lo: int, hi: int, i: nat)
    requires hi <= 0 || hi <= lo
    ensures Cover(lengths, lo, hi, i) == []
    decreases |lengths|
  {
    if lengths != [] {
      CoverEmpty(lengths[1..], lo - lengths[0], hi - lengths[0], i + 1);
    }
  }

  lemma {:induction false} CoverClamp(lengths: seq<nat>, lo: int, hi: int, i: nat)
    requires lo <= 0
    ensures Cover(lengths, lo, hi, i) == Cover(lengths, 0, hi, i)
    decreases |lengths|
  {
    if lengths != [] {
      var first: int := lengths[0];
      CoverClamp(lengths[1..], lo - first, hi - first, i + 1);
      CoverClamp(lengths[1..], -first, hi - first, i + 1);
    }
  }

  /** A non-empty span inside one of the files, the first of which has index i. */
  ghost predicate WithinFile(lengths: seq<nat>, i: nat, s: FileSpan) {
    && s.length > 0
    && i <= s.fileIndex < i + |lengths|
    && s.offset + s.length <= lengths[s.fileIndex - i]
  }

  /** Spans are non-empty, lie inside their files, and come in file order. */
  lemma {:induction false} CoverInside(lengths: seq<nat>, lo: int, hi: int, i: nat)
    ensures forall k :: 0 <= k < |Cover(lengths, lo, hi, i)| ==> WithinFile(lengths, i, Cover(lengths, lo, hi, i)[k])
    ensures forall k, m :: 0 <= k < m < |Cover(lengths, lo, hi, i)| ==>
      Cover(lengths, lo, hi, i)[k].fileIndex < Cover(lengths, lo, hi, i)[m].fileIndex
    decreases |lengths|
  {
    if lengths != [] {
      var rest := Cover(lengths[1..], lo - lengths[0], hi - lengths[0], i + 1);
      CoverInside(lengths[1..], lo - lengths[0], hi - lengths[0], i + 1);
      forall k | 0 <= k < |rest|
        ensures WithinFile(lengths, i, rest[k])
      {
        assert WithinFile(lengths[1..], i + 1, rest[k]);
      }
    }
  }

  /** Together they are exactly as long as the range. */
  lemma {:induction false} CoverTotal(lengths: seq<nat>, lo: int, hi: int, i: nat)
    requires hi <= Total(lengths)
    ensures TotalOf(Cover(lengths, lo, hi, i)) == Max(0, hi - Max(lo, 0))
    decreases |lengths|
  {
    if lengths != [] {
      CoverTotal(lengths[1..], lo - lengths[0], hi - lengths[0], i + 1);
      var rest := Cover(lengths[1..], lo - lengths[0], hi - lengths[0], i + 1);
      var a, b := Max(lo, 0), Min(hi, lengths[0]);
      assert ([FileSpan(i, 0, 0)] + rest)[1..] == rest;
      if a < b {
        assert Cover(lengths, lo, hi, i)[1..] == rest;
      }
    }
  }

  /** The spans of disjoint ranges share no byte of any file. */
  ghost predicate Overlap(s: FileSpan, t: FileSpan) {
    s.fileIndex == t.fileIndex && s.offset < t.offset + t.length && t.offset < s.offset + s.length
  }

  lemma {:induction false} CoverPosition(lengths: seq<nat>, lo: int, hi: int, i: nat, k: nat)
    requires k < |Cover(lengths, lo, hi, i)|
    ensures var s := Cover(lengths, lo, hi, i)[k];
      && i <= s.fileIndex < i + |lengths|
      && lo <= Total(lengths[..s.fileIndex - i]) + s.offset
      && Total(lengths[..s.fileIndex - i]) + s.offset + s.length <= hi
    decreases |lengths|
  {
    var a, b := Max(lo, 0), Min(hi, lengths[0]);
    var spans := Cover(lengths, lo, hi, i);
    if a < b && k == 0 {
      assert lengths[..0] == [];
    } else {
      var m := if a < b then k - 1 else k;
      CoverPosition(lengths[1..], lo - lengths[0], hi - lengths[0], i + 1, m);
      var f := spans[k].fileIndex;
      assert lengths[..f - i][1..] == lengths[1..][..f - i - 1];
    }
  }

  lemma RangesDisjoint(lengths: seq<nat>, lo1: nat, hi1: nat, lo2: nat, hi2: nat, j: nat, k: nat)
    requires hi1 <= lo2
    requires j < |Cover(lengths, lo1, hi1, 0)| && k < |Cover(lengths, lo2, hi2, 0)|
    ensures !Overlap(Cover(lengths, lo1, hi1, 0)[j], Cover(lengths, lo2, hi2, 0)[k])
  {
    CoverPosition(lengths, lo1, hi1, 0, j);
    CoverPosition(lengths, lo2, hi2, 0, k);
  }

  // --------------------------------------------------------- reading and writing

  ghost predicate Inside(files: seq<Bytes>, s: FileSpan) {
    s.fileIndex < |files| && s.offset + s.length <= |files[s.fileIndex]|
  }

  ghost predicate AllInside(files: seq<Bytes>, spans: seq<FileSpan>) {
    forall k :: 0 <= k < |spans| ==> Inside(files, spans[k])
  }

  function ReadSpans(files: seq<Bytes>, spans: seq<FileSpan>): Bytes
    requires AllInside(files, spans)
  {
    if spans == [] then []
    else
      assert Inside(files, spans[0]);
      assert AllInside(files, spans[1..]);
      files[spans[0].fileIndex][spans[0].offset..spans[0].offset + spans[0].length] + ReadSpans(files, spans[1..])
  }

  function Splice(s: Bytes, at: nat, data: Bytes): (r: Bytes)
    requires at + |data| <= |s|
    ensures |r| == |s|
  {
    s[..at] + data + s[at + |data|..]
  }

  lemma SpliceReads(s: Bytes, at: nat, data: Bytes, a: nat, b: nat)
    requires at + |data| <= |s| && a <= b <= |s|
    ensures b <= at || at + |data| <= a ==> Splice(s, at, data)[a..b] == s[a..b]
    ensures a == at && b == at + |data| ==> Splice(s, at, data)[a..b] == data
  {
    SpliceAt(s, at, data);
    hide Splice;
    if b <= at || at + |data| <= a {
      assert forall k :: a <= k < b ==> Splice(s, at, data)[k] == s[k];
    }
  }

  lemma SpliceAt(s: Bytes, at: nat, data: Bytes)
    requires at + |data| <= |s|
    ensures forall k :: 0 <= k < |s| ==>
      Splice(s, at, data)[k] == if at <= k < at + |data| then data[k - at] else s[k]
  {
  }

  function WriteSpan(files: seq<Bytes>, s: FileSpan, data: Bytes): (r: seq<Bytes>)
    requires Inside(files, s) && |data| == s.length
    ensures Lengths(r) == Lengths(files)
  {
    files[s.fileIndex := Splice(files[s.fileIndex], s.offset, data)]
  }

  lemma InsideSameLengths(files: seq<Bytes>, other: seq<Bytes>, spans: seq<FileSpan>)
    requires Lengths(files) == Lengths(other) && AllInside(files, spans)
    ensures AllInside(other, spans)
  {
    forall k | 0 <= k < |spans|
      ensures Inside(other, spans[k])
    {
      assert Inside(files, spans[k]);
      assert Lengths(files)[spans[k].fileIndex] == Lengths(other)[spans[k].fileIndex];
    }
  }

  function WriteSpans(files: seq<Bytes>, spans: seq<FileSpan>, data: Bytes): (r: seq<Bytes>)
    requires AllInside(files, spans) && TotalOf(spans) <= |data|
    ensures Lengths(r) == Lengths(files)
    decreases |spans|
  {
    if spans == [] then files
    else
      assert Inside(files, spans[0]);
      var next := WriteSpan(files, spans[0], data[..spans[0].length]);
      InsideSameLengths(files, next, spans);
      assert AllInside(next, spans[1..]) by {
        forall k | 0 <= k < |spans[1..]|
          ensures Inside(next, spans[1..][k])
        {
          assert Inside(next, spans[k + 1]);
        }
      }
      WriteSpans(next, spans[1..], data[spans[0].length..])
  }

  lemma CoverAllInside(files: seq<Bytes>, i: nat, lo: int, hi: int)
    requires i <= |files|
    ensures AllInside(files, Cover(Lengths(files[i..]), lo, hi, i))
  {
    CoverInside(Lengths(files[i..]), lo, hi, i);
    var spans := Cover(Lengths(files[i..]), lo, hi, i);
    forall k | 0 <= k < |spans|
      ensures Inside(files, spans[k])
    {
      assert WithinFile(Lengths(files[i..]), i, spans[k]);
    }
  }

  lemma ReadSpansStep(files: seq<Bytes>, s: FileSpan, tail: seq<FileSpan>)
    requires AllInside(files, [s] + tail)
    ensures Inside(files, s) && AllInside(files, tail)
    ensures ReadSpans(files, [s] + tail)
         == files[s.fileIndex][s.offset..s.offset + s.length] + ReadSpans(files, tail)
    ensures TotalOf([s] + tail) == s.length + TotalOf(tail)
  {
    var spans := [s] + tail;
    assert spans[0] == s && spans[1..] == tail;
    assert Inside(files, spans[0]);
    forall k | 0 <= k < |tail|
      ensures Inside(files, tail[k])
    {
      assert Inside(files, spans[k + 1]);
    }
  }

  lemma FlatHead(files: seq<Bytes>, i: nat)
    requires i < |files|
    ensures Flat(files[i..]) == files[i] + Flat(files[i + 1..])
    ensures Lengths(files[i..]) == [|files[i]|] + Lengths(files[i + 1..])
  {
    assert files[i..][1..] == files[i + 1..];
  }

  /** The part of the range [lo, hi) that lies in s, positions before s being cut off. */
  function Part(s: Bytes, lo: int, hi: int): Bytes {
    if Max(lo, 0) < Min(hi, |s|) then s[Max(lo, 0)..Min(hi, |s|)] else []
  }

  lemma SliceOfConcat(f: Bytes, rest: Bytes, a: nat, b: nat)
    requires a <= b <= |f| + |rest|
    ensures b <= |f| ==> (f + rest)[a..b] == f[a..b]
    ensures |f| <= a ==> (f + rest)[a..b] == rest[a - |f|..b - |f|]
    ensures a <= |f| <= b ==> (f + rest)[a..b] == f[a..|f|] + rest[0..b - |f|]
  {
  }

  lemma PartSplits(f: Bytes, rest: Bytes, lo: int, hi: int)
    ensures Part(f + rest, lo, hi) == Part(f, lo, hi) + Part(rest, lo - |f|, hi - |f|)
  {
    var n := |f|;
    var a, b := Max(lo, 0), Min(hi, n + |rest|);
    if a < b {
      SliceOfConcat(f, rest, a, b);
      if b <= n {
        assert Part(rest, lo - n, hi - n) == [];
      } else if n <= a {
        assert Part(f, lo, hi) == [];
      }
    } else {
      assert Part(f, lo, hi) == [] && Part(rest, lo - n, hi - n) == [];
    }
  }

  /** Reading the spans of a range is reading that range of the flat array. */
  lemma {:induction false} ReadIsFlat(files: seq<Bytes>, i: nat, lo: int, hi: int)
    requires i <= |files|
    ensures AllInside(files, Cover(Lengths(files[i..]), lo, hi, i))
    ensures ReadSpans(files, Cover(Lengths(files[i..]), lo, hi, i)) == Part(Flat(files[i..]), lo, hi)
    decreases |files| - i
  {
    hide Flat, AllInside, ReadSpans, Part;
    CoverAllInside(files, i, lo, hi);
    if i == |files| {
      NothingRead(files, lo, hi);
    } else {
      FlatHead(files, i);
      var L := |files[i]|;
      var tail := Cover(Lengths(files[i + 1..]), lo - L, hi - L, i + 1);
      var a, b := Max(lo, 0), Min(hi, L);
      assert ([L] + Lengths(files[i + 1..]))[1..] == Lengths(files[i + 1..]);
      ReadIsFlat(files, i + 1, lo - L, hi - L);
      PartSplits(files[i], Flat(files[i + 1..]), lo, hi);
      PartOf(files[i], lo, hi);
      if a < b {
        ReadSpansStep(files, FileSpan(i, a, b - a), tail);
      } else {
        assert [] + ReadSpans(files, tail) == ReadSpans(files, tail);
      }
    }
  }

  lemma PartOf(s: Bytes, lo: int, hi: int)
    ensures Part(s, lo, hi) == if Max(lo, 0) < Min(hi, |s|) then s[Max(lo, 0)..Min(hi, |s|)] else []
  {
  }

  lemma NothingRead(files: seq<Bytes>, lo: int, hi: int)
    ensures AllInside(files, []) && ReadSpans(files, []) == [] && Part(Flat([]), lo, hi) == []
  {
  }

  function Patched(s: Bytes, at: int, data: Bytes): Bytes
    requires data != [] ==> 0 <= at && at + |data| <= |s|
  {
    if data == [] then s else Splice(s, at, data)
  }

  /** r is files with `data` written at position `at`, counted from the start of file i. */
  ghost predicate Wrote(files: seq<Bytes>, r: seq<Bytes>, i: nat, at: int, data: Bytes)
    requires i <= |files|
  {
    && |r| == |files|
    && r[..i] == files[..i]
    && (data != [] ==> 0 <= at && at + |data| <= |Flat(files[i..])|)
    && Flat(r[i..]) == Patched(Flat(files[i..]), at, data)
  }

  /** A write past file i leaves that file alone. */
  lemma WroteLater(files: seq<Bytes>, r: seq<Bytes>, i: nat, at: int, data: Bytes)
    requires i < |files| && Wrote(files, r, i + 1, at - |files[i]|, data)
    ensures Wrote(files, r, i, at, data)
  {
    FlatHead(files, i);
    FlatHead(r, i);
    assert r[i] == r[..i + 1][i] == files[..i + 1][i];
    assert r[..i] == r[..i + 1][..i] == files[..i + 1][..i];
    var f, rest := files[i], Flat(files[i + 1..]);
    hide Flat;
    if data != [] {
      assert f + Splice(rest, at - |f|, data) == Splice(f + rest, at, data);
    }
  }

  /** A write that starts in file i: its first k bytes go there, the others to the start of the next file. */
  lemma WroteFirst(files: seq<Bytes>, next: seq<Bytes>, r: seq<Bytes>, i: nat, at: nat, data: Bytes, k: nat)
    requires i < |files| && at + k <= |files[i]| && 0 < k <= |data|
    requires k < |data| ==> at + k == |files[i]|
    requires next == files[i := Splice(files[i], at, data[..k])]
    requires Wrote(next, r, i + 1, 0, data[k..])
    ensures Wrote(files, r, i, at, data)
  {
    FlatHead(files, i);
    FlatHead(r, i);
    assert next[i + 1..] == files[i + 1..];
    assert r[i] == r[..i + 1][i] == next[..i + 1][i];
    assert r[..i] == r[..i + 1][..i] == next[..i + 1][..i] == files[..i];
    var f, rest := files[i], Flat(files[i + 1..]);
    hide Flat;
    assert data == data[..k] + data[k..];
    assert Splice(f, at, data[..k]) + Patched(rest, 0, data[k..]) == Splice(f + rest, at, data);
  }

  lemma WriteSpansStep(files: seq<Bytes>, s: FileSpan, tail: seq<FileSpan>, data: Bytes)
    requires AllInside(files, [s] + tail) && TotalOf([s] + tail) <= |data|
    ensures Inside(files, s) && s.length + TotalOf(tail) <= |data|
    ensures var next := WriteSpan(files, s, data[..s.length]);
      AllInside(next, tail) && WriteSpans(files, [s] + tail, data) == WriteSpans(next, tail, data[s.length..])
  {
    var spans := [s] + tail;
    assert spans[0] == s && spans[1..] == tail;
    assert Inside(files, spans[0]);
    var next := WriteSpan(files, s, data[..s.length]);
    InsideSameLengths(files, next, spans);
    forall k | 0 <= k < |tail|
      ensures Inside(next, tail[k])
    {
      assert Inside(next, spans[k + 1]);
    }
  }

  /** What file i contributes to the spans of a range. */
  lemma CoverHead(files: seq<Bytes>, i: nat, lo: int, hi: int)
    requires i < |files|
    ensures var L: int := |files[i]|;
      var a, b := Max(lo, 0), Min(hi, L);
      var tail := Cover(Lengths(files[i + 1..]), lo - L, hi - L, i + 1);
      Cover(Lengths(files[i..]), lo, hi, i) == if a < b then [FileSpan(i, a, b - a)] + tail else tail
  {
    FlatHead(files, i);
    assert ([|files[i]|] + Lengths(files[i + 1..]))[1..] == Lengths(files[i + 1..]);
  }

  /** Writing the spans of a range is overwriting that range of the flat array. */
  lemma {:induction false} WriteIsFlat(files: seq<Bytes>, i: nat, lo: int, hi: int, data: Bytes)
    requires i <= |files| && hi <= |Flat(files[i..])|
    requires |data| == Max(0, hi - Max(lo, 0))
    ensures AllInside(files, Cover(Lengths(files[i..]), lo, hi, i))
    ensures TotalOf(Cover(Lengths(files[i..]), lo, hi, i)) == |data|
    ensures Wrote(files, WriteSpans(files, Cover(Lengths(files[i..]), lo, hi, i), data), i, Max(lo, 0), data)
    decreases |files| - i
  {
    hide Flat, Wrote, WriteSpans, Splice, AllInside, Cover;
    CoverAllInside(files, i, lo, hi);
    FlatLength(files[i..]);
    CoverTotal(Lengths(files[i..]), lo, hi, i);
    if i == |files| {
      CoverEnd(files[i..], lo, hi, i);
      NothingWritten(files);
    } else {
      CoverHead(files, i, lo, hi);
      FlatHead(files, i);
      var L := |files[i]|;
      var tail := Cover(Lengths(files[i + 1..]), lo - L, hi - L, i + 1);
      var a, b := Max(lo, 0), Min(hi, L);
      if a < b {
        var next, later := files[i := Splice(files[i], a, data[..b - a])], data[b - a..];
        assert next[i + 1..] == files[i + 1..];
        assert Max(lo - L, 0) == 0;
        WriteIsFlat(next, i + 1, lo - L, hi - L, later);
        FirstSpan(files, next, WriteSpans(next, tail, later), FileSpan(i, a, b - a), tail, data);
      } else {
        WriteIsFlat(files, i + 1, lo - L, hi - L, data);
        var r := WriteSpans(files, tail, data);
        WroteNowhere(files, r, i + 1, Max(lo - L, 0), a - L, data);
        WroteLater(files, r, i, a, data);
      }
    }
  }

  /** A span of file i, then spans of later files that have been dealt with. */
  lemma FirstSpan(files: seq<Bytes>, next: seq<Bytes>, r: seq<Bytes>, span: FileSpan, tail: seq<FileSpan>, data: Bytes)
    requires AllInside(files, [span] + tail) && TotalOf([span] + tail) <= |data|
    requires span.fileIndex < |files| && span.offset + span.length <= |files[span.fileIndex]|
    requires 0 < span.length <= |data|
    requires span.length < |data| ==> span.offset + span.length == |files[span.fileIndex]|
    requires next == files[span.fileIndex := Splice(files[span.fileIndex], span.offset, data[..span.length])]
    requires AllInside(next, tail) && TotalOf(tail) <= |data[span.length..]|
    requires r == WriteSpans(next, tail, data[span.length..])
    requires Wrote(next, r, span.fileIndex + 1, 0, data[span.length..])
    ensures r == WriteSpans(files, [span] + tail, data)
    ensures Wrote(files, r, span.fileIndex, span.offset, data)
  {
    hide Wrote, WriteSpans, AllInside, TotalOf, Splice;
    WriteSpansStep(files, span, tail, data);
    WroteFirst(files, next, r, span.fileIndex, span.offset, data, span.length);
  }

  lemma CoverEnd(files: seq<Bytes>, lo: int, hi: int, i: nat)
    requires files == []
    ensures Cover(Lengths(files), lo, hi, i) == []
  {
  }

  lemma NothingWritten(files: seq<Bytes>)
    ensures WriteSpans(files, [], []) == files && Wrote(files, files, |files|, 0, [])
    ensures forall at :: Wrote(files, files, |files|, at, [])
  {
  }

  lemma WroteNowhere(files: seq<Bytes>, r: seq<Bytes>, i: nat, at1: int, at2: int, data: Bytes)
    requires i <= |files| && Wrote(files, r, i, at1, data) && (data == [] || at1 == at2)
    ensures Wrote(files, r, i, at2, data)
  {
  }
}
