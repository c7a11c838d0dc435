/** Rebuilding a download's progress from the files on disk. */
module Resume {
  import opened ByteStrings
  import opened Metainfo
  import opened InfoLengths
  import opened DiskSpans
  import opened DiskMapping
  import opened PickerSpec
  import opened PickerLaws
  import opened SessionSpec
  import opened SessionLaws
  import PK = PiecePicker
  import BF = Bitfield

  /** The torrent an info dictionary describes, with the hash function as a parameter. */
  function TorrentOf(info: Info, sha1: Bytes -> Hash): Torrent {
    Torrent(|info.pieces|, info.pieceLength, info.totalLength, info.pieces, sha1)
  }

  /** Piece i can be read and its bytes match its hash. */
  ghost predicate Intact(tor: Torrent, disk: Bytes, readable: set<nat>, i: nat) {
    i in readable && Verifies(tor, i, OnDisk(tor, disk, i))
  }

  /** The fresh picker after the first k pieces have been read back and checked. */
  ghost function Adopt(tor: Torrent, disk: Bytes, readable: set<nat>, k: nat): Picker {
    if k == 0 then NewPicker(tor.n, tor.pieceLength, tor.total)
    else if Intact(tor, disk, readable, k - 1) then MarkVerified(Adopt(tor, disk, readable, k - 1), k - 1)
    else Adopt(tor, disk, readable, k - 1)
  }

  ghost predicate Adopted(tor: Torrent, disk: Bytes, readable: set<nat>, k: nat, p: Picker) {
    && Sound(tor, p)
    && (forall i: nat :: i in p.have <==> i < k && Intact(tor, disk, readable, i))
    && p.verified == |p.have|
    && p.inProgress == map[] && p.mode != Endgame
    && forall i :: 0 <= i < |p.availability| ==> p.availability[i] == 0
  }

  /** Exactly the readable pieces whose bytes match are adopted, the count is theirs, and the picker is sound. */
  lemma {:induction false} AdoptsExactly(tor: Torrent, disk: Bytes, readable: set<nat>, k: nat)
    requires Tiled(tor.n, tor.pieceLength, tor.total) && k <= tor.n
    ensures Adopted(tor, disk, readable, k, Adopt(tor, disk, readable, k))
  {
    hide Intact, Tiled, NewPicker;
    if k == 0 {
      FreshAdopted(tor, disk, readable);
    } else {
      AdoptsExactly(tor, disk, readable, k - 1);
      var p := Adopt(tor, disk, readable, k - 1);
      if Intact(tor, disk, readable, k - 1) {
        AdoptOne(tor, disk, readable, k, p);
      }
    }
  }

  lemma FreshAdopted(tor: Torrent, disk: Bytes, readable: set<nat>)
    requires Tiled(tor.n, tor.pieceLength, tor.total)
    ensures Adopted(tor, disk, readable, 0, NewPicker(tor.n, tor.pieceLength, tor.total))
  {
    hide Inv;
    NewPickerInv(tor.n, tor.pieceLength, tor.total);
  }

  lemma AdoptOne(tor: Torrent, disk: Bytes, readable: set<nat>, k: nat, p: Picker)
    requires 0 < k <= tor.n && Adopted(tor, disk, readable, k - 1, p) && Intact(tor, disk, readable, k - 1)
    ensures Adopted(tor, disk, readable, k, MarkVerified(p, k - 1))
  {
    hide Inv, Intact, MarkVerified, Matched;
    VerifiedKeepsInv(p, k - 1);
    VerifiedParams(p, k - 1);
    InvCount(MarkVerified(p, k - 1));
    MarkedAlone(p, k - 1);
  }

  /** With no piece in progress, marking one verified starts no endgame. */
  lemma MarkedAlone(p: Picker, i: nat)
    requires p.inProgress == map[] && p.mode != Endgame
    ensures MarkVerified(p, i).inProgress == map[] && MarkVerified(p, i).mode != Endgame
  {
    assert p.inProgress - {i} == map[];
  }

  lemma InvCount(p: Picker)
    requires Inv(p)
    ensures p.verified == |p.have|
  {
  }

  /** What is adopted is a sound start for a session. */
  lemma AdoptedStarts(tor: Torrent, disk: Bytes, readable: set<nat>)
    requires Tiled(tor.n, tor.pieceLength, tor.total) && tor.total <= |disk|
    ensures Starts(tor, Adopt(tor, disk, readable, tor.n), disk) && Matched(Adopt(tor, disk, readable, tor.n))
  {
    hide Tiled, Adopt, Verifies, OnDisk;
    AdoptsExactly(tor, disk, readable, tor.n);
    SoundIs(tor, Adopt(tor, disk, readable, tor.n));
  }

  /**
   * A restart never loses a piece that reached the disk: of what the first session had, every readable piece
   * is adopted again unless its write was still to come or failed.
   */
  lemma RestartKeeps(tor: Torrent, p: Picker, disk: Bytes, acts: seq<Act>, readable: set<nat>)
    requires Starts(tor, p, disk) && Matched(p) && LegalRun(tor, Opened(p, disk), acts)
    ensures var s := Run(tor, Opened(p, disk), acts);
      && (s.picker.have * readable) - Queued(s.writes) - s.spoiled
           <= Adopt(tor, s.disk, readable, tor.n).have
      && Starts(tor, Adopt(tor, s.disk, readable, tor.n), s.disk)
  {
    var s := Run(tor, Opened(p, disk), acts);
    SoundIs(tor, p);
    hide Tiled, Adopt, Verifies, OnDisk, LegalRun, Run, Starts, Matched, Books, Pipelined, Sound;
    RunKeepsSafe(tor, p, disk, acts);
    AdoptsExactly(tor, s.disk, readable, tor.n);
    AdoptedStarts(tor, s.disk, readable);
    forall i | i in (s.picker.have * readable) - Queued(s.writes) - s.spoiled
      ensures i in Adopt(tor, s.disk, readable, tor.n).have
    {
      HadIsOnDisk(tor, p, disk, acts, i);
    }
  }

  /** When every write succeeded and everything can be read, the next session starts with all that this one had. */
  lemma RestartIsLossless(tor: Torrent, p: Picker, disk: Bytes, acts: seq<Act>)
    requires Starts(tor, p, disk) && Matched(p) && LegalRun(tor, Opened(p, disk), acts)
    requires var s := Run(tor, Opened(p, disk), acts); s.writes == [] && s.spoiled == {}
    ensures var s := Run(tor, Opened(p, disk), acts);
      s.picker.have <= Adopt(tor, s.disk, Range(tor.n), tor.n).have
  {
    hide LegalRun, Run, Starts, Matched, Adopt;
    RestartKeeps(tor, p, disk, acts, Range(tor.n));
    RunKeepsSafe(tor, p, disk, acts);
    hide Books, DiskAgrees, Pipelined;
    SoundHave(tor, Run(tor, Opened(p, disk), acts).picker);
  }

  lemma LengthsAgree(info: Info, index: nat)
    requires Tiled(|info.pieces|, info.pieceLength, info.totalLength) && index < |info.pieces|
    ensures PieceStart(info.pieceLength, index) < info.totalLength
    ensures ResumePieceLength(info, index)
         == PieceEnd(info.pieceLength, info.totalLength, index) - PieceStart(info.pieceLength, index)
  {
    PieceBounds(|info.pieces|, info.pieceLength, info.totalLength, index);
  }

  /** What happens to piece i, the pieces before it being dealt with. */
  lemma AdoptMore(tor: Torrent, disk: Bytes, readable: set<nat>, i: nat)
    ensures i !in readable ==> Adopt(tor, disk, readable, i + 1) == Adopt(tor, disk, readable, i)
    ensures i in readable ==>
      Adopt(tor, disk, readable, i + 1)
        == if Verifies(tor, i, OnDisk(tor, disk, i)) then MarkVerified(Adopt(tor, disk, readable, i), i)
           else Adopt(tor, disk, readable, i)
  {
    hide OnDisk, Verifies, MarkVerified;
  }

  lemma ReadIsOnDisk(info: Info, sha1: Bytes -> Hash, disk: Bytes, i: nat)
    requires Tiled(|info.pieces|, info.pieceLength, info.totalLength) && i < |info.pieces|
    requires info.totalLength <= |disk|
    ensures PieceStart(info.pieceLength, i) < info.totalLength
    ensures var data := PieceOf(disk, info.pieceLength, info.totalLength, i);
      OnDisk(TorrentOf(info, sha1), disk, i) == data && |data| == ResumePieceLength(info, i)
      && (Verifies(TorrentOf(info, sha1), i, data) <==> sha1(data) == info.pieces[i])
  {
    hide Tiled;
    LengthsAgree(info, i);
    PieceBounds(|info.pieces|, info.pieceLength, info.totalLength, i);
  }

  /** `verify_on_disk`, over a disk on which just the pieces in `readable` can be read. */
  method VerifyOnDisk(disk: Disk, mapping: FileMapping, info: Info, sha1: Bytes -> Hash, picker: PK.PiecePicker,
                      readable: set<nat>) returns (verified: nat)
    requires mapping.Valid() && mapping.lengths == Lengths(disk.files)
    requires mapping.pieceLength == info.pieceLength && mapping.totalLength == info.totalLength
    requires Tiled(|info.pieces|, info.pieceLength, info.totalLength) && |info.pieces| <= MAX_PIECES
    requires picker.Valid() && picker.View() == NewPicker(|info.pieces|, info.pieceLength, info.totalLength)
    modifies picker`inProgress, picker`verifiedCount, picker`mode, picker.have
    ensures picker.Valid() && info.totalLength <= |Flat(disk.files)|
    ensures picker.View() == Adopt(TorrentOf(info, sha1), Flat(disk.files), readable, |info.pieces|)
    ensures verified == |picker.View().have| == picker.View().verified == picker.have.count
    ensures forall i: nat :: i in picker.View().have <==>
      (i < |info.pieces| && i in readable
       && sha1(OnDisk(TorrentOf(info, sha1), Flat(disk.files), i)) == info.pieces[i])
  {
    hide Tiled, OnDisk, Adopted, MarkVerified, NewPicker, Flat, PickerPieceLength, Verifies, Adopt,
      ResumePieceLength, PieceOf, PieceStart, PieceEnd, Shape, PK.AllValid, PK.Views, BF.BitSet, MappingBounds,
      Mapped;
    ghost var tor := TorrentOf(info, sha1);
    ghost var flat := Flat(disk.files);
    verified := 0;
    AdoptNone(tor, flat, readable);
    for index := 0 to |info.pieces|
      invariant picker.Valid()
      invariant picker.View() == Adopt(tor, flat, readable, index)
      invariant verified == picker.View().verified
    {
      var length := ResumePieceLength(info, index);
      LengthsAgree(info, index);
      AdoptMore(tor, flat, readable, index);
      if index !in readable {
        continue;
      }
      var data := disk.ReadPiece(mapping, index, length);
      ReadIsOnDisk(info, sha1, flat, index);
      if |data| == length && index < |info.pieces| && sha1(data) == info.pieces[index] {
        MarkedCount(picker.View(), index);
        picker.MarkVerified(index);
        verified := verified + 1;
      }
    }
    FilesCover(mapping.lengths, mapping.totalLength, disk.files);
    AdoptsExactly(tor, flat, readable, |info.pieces|);
    AdoptedCount(tor, flat, readable, |info.pieces|, picker.View());
  }

  lemma FilesCover(lengths: seq<nat>, total: nat, files: seq<Bytes>)
    requires MappingBounds(lengths, total) && Lengths(files) == lengths
    ensures total <= |Flat(files)|
  {
    FlatLength(files);
    SumIsTotal(lengths);
  }

  lemma AdoptNone(tor: Torrent, disk: Bytes, readable: set<nat>)
    ensures var p := NewPicker(tor.n, tor.pieceLength, tor.total);
      Adopt(tor, disk, readable, 0) == p && p.verified == 0
  {
  }

  lemma MarkedCount(p: Picker, i: nat)
    ensures MarkVerified(p, i).verified == p.verified + 1
  {
  }

  lemma AdoptedCount(tor: Torrent, disk: Bytes, readable: set<nat>, k: nat, p: Picker)
    requires Adopted(tor, disk, readable, k, p)
    ensures p.verified == |p.have|
    ensures forall i: nat :: i in p.have <==>
      (i < k && i in readable && i < |tor.hashes| && tor.sha1(OnDisk(tor, disk, i)) == tor.hashes[i])
  {
    hide Sound, OnDisk;
  }
}
