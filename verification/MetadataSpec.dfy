/** Collecting the metadata pieces of a magnet download: who was asked for what, and the bytes so far. */
module MetadataSpec {
  import opened ByteStrings
  import opened Wrappers
  import opened Address

  const METADATA_PIECE_SIZE: nat := 16384

  // ------------------------------------------------------- specification

  /** For each piece the data first accepted for it, and the peer it is asked from. */
  datatype Meta = Meta(total: nat, got: seq<Option<Bytes>>, askedFrom: seq<Option<SocketAddr>>)

  function NumPieces(total: nat): nat {
    (total + METADATA_PIECE_SIZE - 1) / METADATA_PIECE_SIZE
  }

  function PieceSize(total: nat, i: nat): nat
    requires i < NumPieces(total)
  {
    if (i + 1) * METADATA_PIECE_SIZE <= total then METADATA_PIECE_SIZE else total - i * METADATA_PIECE_SIZE
  }

  function Empty(total: nat): Meta {
    Meta(total, seq(NumPieces(total), _ => None), seq(NumPieces(total), _ => None))
  }

  ghost predicate Inv(s: Meta) {
    && |s.got| == |s.askedFrom| == NumPieces(s.total)
    && forall i :: 0 <= i < |s.got| && s.got[i].Some? ==> s.askedFrom[i] == None && |s.got[i].value| <= METADATA_PIECE_SIZE
  }

  predicate Complete(s: Meta) {
    forall i :: 0 <= i < |s.got| ==> s.got[i].Some?
  }

  function OnData(s: Meta, piece: nat, data: Bytes): Meta
    requires |s.askedFrom| == |s.got|
  {
    if piece >= |s.got| || s.got[piece].Some? || |data| > METADATA_PIECE_SIZE then s
    else s.(got := s.got[piece := Some(data)], askedFrom := s.askedFrom[piece := None])
  }

  function OnReject(s: Meta, piece: nat): Meta {
    if piece < |s.askedFrom| then s.(askedFrom := s.askedFrom[piece := None]) else s
  }

  function OnPeerLost(s: Meta, addr: SocketAddr): Meta {
    s.(askedFrom := seq(|s.askedFrom|, i requires 0 <= i < |s.askedFrom| =>
      if s.askedFrom[i] == Some(addr) then None else s.askedFrom[i]))
  }

  predicate Free(s: Meta, i: nat)
    requires |s.askedFrom| == |s.got|
  {
    i < |s.got| && s.got[i].None? && s.askedFrom[i].None?
  }

  /** The least free piece from i on. */
  function FirstFree(s: Meta, i: nat): (r: Option<nat>)
    requires i <= |s.got| == |s.askedFrom|
    ensures r.Some? ==> i <= r.value && Free(s, r.value) && forall j :: i <= j < r.value ==> !Free(s, j)
    ensures r.None? ==> forall j :: i <= j < |s.got| ==> !Free(s, j)
    decreases |s.got| - i
  {
    if i == |s.got| then None else if Free(s, i) then Some(i) else FirstFree(s, i + 1)
  }

  function Assign(s: Meta, piece: nat, addr: SocketAddr): Meta
    requires piece < |s.askedFrom|
  {
    s.(askedFrom := s.askedFrom[piece := Some(addr)])
  }

  function FreeCount(s: Meta): nat
    requires |s.askedFrom| == |s.got|
  {
    |set i | 0 <= i < |s.got| && Free(s, i)|
  }

  lemma AssignShrinks(s: Meta, piece: nat, addr: SocketAddr)
    requires |s.askedFrom| == |s.got| && Free(s, piece)
    ensures FreeCount(Assign(s, piece, addr)) < FreeCount(s)
  {
    var before := set i | 0 <= i < |s.got| && Free(s, i);
    var t := Assign(s, piece, addr);
    assert (set i | 0 <= i < |t.got| && Free(t, i)) == before - {piece};
  }

  /** The request loop: ask for free pieces until none is left or, after `room` sends, one fails. */
  function RequestLoop(s: Meta, addr: SocketAddr, room: nat): (t: Meta)
    requires |s.askedFrom| == |s.got|
    ensures t.total == s.total && t.got == s.got && |t.askedFrom| == |s.askedFrom|
    decreases FreeCount(s)
  {
    match FirstFree(s, 0)
    case None => s
    case Some(piece) =>
      if room == 0 then OnReject(Assign(s, piece, addr), piece)
      else
        AssignShrinks(s, piece, addr);
        RequestLoop(Assign(s, piece, addr), addr, room - 1)
  }

  /** A piece as it stands in the buffer: cut to its size, or filled up with zeros. */
  function Fitted(piece: Option<Bytes>, size: nat): Bytes {
    var data := if piece.Some? then piece.value else [];
    if |data| >= size then data[..size] else data + seq(size - |data|, _ => 0)
  }

  /** Piece i stands at its place in the bytes. */
  ghost predicate InPlace(bytes: Bytes, got: seq<Option<Bytes>>, i: nat)
    requires i < |got| == NumPieces(|bytes|)
  {
    var start, size := i * METADATA_PIECE_SIZE, PieceSize(|bytes|, i);
    bytes[start..start + size] == Fitted(got[i], size)
  }

  lemma FittedFills(data: Bytes, size: nat, zeros: Bytes)
    requires zeros == Fitted(None, size)
    ensures var n := if |data| < size then |data| else size;
      data[..n] + zeros[n..] == Fitted(Some(data), size)
  {
  }

  /** Copying an accepted piece to its offset puts it in place and moves no other. */
  lemma WriteInPlace(before: Bytes, after: Bytes, got: seq<Option<Bytes>>, piece: nat, data: Bytes, i: nat)
    requires i < |got| == NumPieces(|before|) && piece < |got| && got[piece] == None
    requires |data| <= METADATA_PIECE_SIZE
    requires InPlace(before, got, i) && InPlace(before, got, piece)
    requires var offset := piece * METADATA_PIECE_SIZE;
      var end := if offset + |data| < |before| then offset + |data| else |before|;
      after == before[..offset] + data[..end - offset] + before[end..]
    ensures InPlace(after, got[piece := Some(data)], i)
  {
    hide Fitted, NumPieces;
    var offset, size := piece * METADATA_PIECE_SIZE, PieceSize(|before|, piece);
    PieceBounds(|before|, piece);
    PieceBounds(|before|, i);
    var n := if |data| < size then |data| else size;
    if i != piece {
      var start := i * METADATA_PIECE_SIZE;
      SpliceElsewhere(before, after, offset, data[..n], start, start + PieceSize(|before|, i));
    } else {
      SpliceHere(before, after, offset, data[..n], size);
      FittedFills(data, size, before[offset..offset + size]);
    }
  }

  lemma PieceBounds(total: nat, i: nat)
    requires i < NumPieces(total)
    ensures 0 < PieceSize(total, i) <= METADATA_PIECE_SIZE
    ensures i * METADATA_PIECE_SIZE + PieceSize(total, i) <= total
    ensures PieceSize(total, i) < METADATA_PIECE_SIZE ==> i * METADATA_PIECE_SIZE + PieceSize(total, i) == total
  {
  }

  lemma SpliceElsewhere(before: Bytes, after: Bytes, offset: nat, data: Bytes, a: nat, b: nat)
    requires offset + |data| <= |before| && a <= b <= |before|
    requires after == before[..offset] + data + before[offset + |data|..]
    requires b <= offset || offset + |data| <= a
    ensures |after| == |before| && after[a..b] == before[a..b]
  {
  }

  lemma SpliceHere(before: Bytes, after: Bytes, offset: nat, data: Bytes, size: nat)
    requires |data| <= size && offset + size <= |before|
    requires after == before[..offset] + data + before[offset + |data|..]
    ensures |after| == |before| && after[offset..offset + size] == data + before[offset..offset + size][|data|..]
  {
  }

  /** The buffer contents up to piece k. */
  ghost function Assembled(s: Meta, k: nat): Bytes
    requires k <= |s.got| == NumPieces(s.total)
  {
    if k == 0 then [] else Assembled(s, k - 1) + Fitted(s.got[k - 1], PieceSize(s.total, k - 1))
  }

  /** Bytes whose pieces are all in place are the assembled pieces. */
  lemma {:induction false} InPlaceIsAssembled(bytes: Bytes, s: Meta, k: nat)
    requires s.total == |bytes| && k <= |s.got| == NumPieces(s.total)
    requires forall i :: 0 <= i < |s.got| ==> InPlace(bytes, s.got, i)
    ensures var end := if k * METADATA_PIECE_SIZE <= s.total then k * METADATA_PIECE_SIZE else s.total;
      Assembled(s, k) == bytes[..end]
  {
    hide Fitted;
    if k > 0 {
      InPlaceIsAssembled(bytes, s, k - 1);
      assert InPlace(bytes, s.got, k - 1);
      var start, size := (k - 1) * METADATA_PIECE_SIZE, PieceSize(s.total, k - 1);
      assert bytes[..start + size] == bytes[..start] + bytes[start..start + size];
    }
  }

  lemma ZerosInPlace(bytes: Bytes, i: nat)
    requires forall k :: 0 <= k < |bytes| ==> bytes[k] == 0
    requires i < NumPieces(|bytes|)
    ensures InPlace(bytes, Empty(|bytes|).got, i)
  {
  }

  // --------------------------------------------------------- runs of events

  datatype Event =
    | Data(piece: nat, data: Bytes)
    | Reject(piece: nat)
    | Lost(addr: SocketAddr)
    | Ask(addr: SocketAddr, room: nat)

  function Step(s: Meta, e: Event): (t: Meta)
    requires |s.askedFrom| == |s.got|
    ensures |t.askedFrom| == |t.got| == |s.got| && t.total == s.total
  {
    match e
    case Data(piece, data) => OnData(s, piece, data)
    case Reject(piece) => OnReject(s, piece)
    case Lost(addr) => OnPeerLost(s, addr)
    case Ask(addr, room) => RequestLoop(s, addr, room)
  }

  lemma {:induction false} LoopEffect(s: Meta, addr: SocketAddr, room: nat)
    requires |s.askedFrom| == |s.got|
    ensures var t := RequestLoop(s, addr, room);
      && (forall i :: 0 <= i < |s.got| && !Free(s, i) ==> t.askedFrom[i] == s.askedFrom[i])
      && (forall i :: 0 <= i < |s.got| && Free(s, i) ==> t.askedFrom[i] in {None, Some(addr)})
      && (FreeCount(s) <= room ==> forall i :: 0 <= i < |s.got| ==> !Free(t, i))
    decreases FreeCount(s)
  {
    match FirstFree(s, 0)
    case None =>
    case Some(piece) =>
      if room > 0 {
        AssignShrinks(s, piece, addr);
        LoopEffect(Assign(s, piece, addr), addr, room - 1);
      } else {
        var free := set i | 0 <= i < |s.got| && Free(s, i);
        assert piece in free;
      }
  }

  function Run(s: Meta, events: seq<Event>): (t: Meta)
    requires |s.askedFrom| == |s.got|
    ensures |t.askedFrom| == |t.got| == |s.got| && t.total == s.total
  {
    if events == [] then s else Step(Run(s, events[..|events| - 1]), events[|events| - 1])
  }

  lemma StepKeepsInv(s: Meta, e: Event)
    requires Inv(s)
    ensures Inv(Step(s, e))
    ensures forall i :: 0 <= i < |s.got| && s.got[i].Some? ==> Step(s, e).got[i] == s.got[i]
  {
    if e.Ask? {
      LoopEffect(s, e.addr, e.room);
    }
  }

  /** A received piece is never asked for again, and its first copy is kept. */
  lemma {:induction false} RunKeepsInv(s: Meta, events: seq<Event>)
    requires Inv(s)
    ensures Inv(Run(s, events))
    ensures forall i :: 0 <= i < |s.got| && s.got[i].Some? ==> Run(s, events).got[i] == s.got[i]
  {
    if events != [] {
      RunKeepsInv(s, events[..|events| - 1]);
      StepKeepsInv(Run(s, events[..|events| - 1]), events[|events| - 1]);
    }
  }

  /** What can take piece i away from the peer it is asked from. */
  predicate Releases(s: Meta, e: Event, i: nat)
    requires i < |s.askedFrom|
  {
    || (e.Data? && e.piece == i && |e.data| <= METADATA_PIECE_SIZE)
    || (e.Reject? && e.piece == i)
    || (e.Lost? && s.askedFrom[i] == Some(e.addr))
  }

  /** An assignment ends exactly at data, a reject, or the loss of its peer; no request loop takes it over. */
  lemma AssignmentEndsIff(s: Meta, e: Event, i: nat)
    requires Inv(s) && i < |s.askedFrom| && s.askedFrom[i].Some?
    ensures Step(s, e).askedFrom[i] == (if Releases(s, e, i) then None else s.askedFrom[i])
  {
    if e.Ask? {
      LoopEffect(s, e.addr, e.room);
    }
  }

  // ----------------------------------------------------------- assembly

  /** The piece of the original metadata that piece i should be. */
  function Slice(original: Bytes, i: nat): Bytes
    requires i < NumPieces(|original|)
  {
    original[i * METADATA_PIECE_SIZE..i * METADATA_PIECE_SIZE + PieceSize(|original|, i)]
  }

  /** Where the first k pieces end. */
  function EndOf(total: nat, k: nat): nat {
    if k * METADATA_PIECE_SIZE <= total then k * METADATA_PIECE_SIZE else total
  }

  lemma PieceEnds(total: nat, i: nat)
    requires i < NumPieces(total)
    ensures EndOf(total, i) == i * METADATA_PIECE_SIZE
    ensures EndOf(total, i + 1) == i * METADATA_PIECE_SIZE + PieceSize(total, i) <= total
  {
    PieceBounds(total, i);
  }

  /** The assembled bytes are the original's exactly when each piece, cut or filled up, is its slice. */
  lemma {:induction false} AssembledIff(s: Meta, original: Bytes, k: nat)
    requires s.total == |original| && k <= |s.got| == NumPieces(s.total)
    ensures |Assembled(s, k)| == EndOf(s.total, k) <= |original|
    ensures Assembled(s, k) == original[..EndOf(s.total, k)]
       <==> forall i :: 0 <= i < k ==> Fitted(s.got[i], PieceSize(s.total, i)) == Slice(original, i)
  {
    hide Fitted, NumPieces, PieceSize, EndOf;
    if k == 0 {
      NothingAssembled(s);
    } else {
      AssembledIff(s, original, k - 1);
      PieceEnds(s.total, k - 1);
      var start, end := EndOf(s.total, k - 1), EndOf(s.total, k);
      var last := Fitted(s.got[k - 1], PieceSize(s.total, k - 1));
      FittedSize(s.got[k - 1], PieceSize(s.total, k - 1));
      assert original[..end] == original[..start] + original[start..end];
      var front := Assembled(s, k - 1);
      assert front + last == original[..end] <==> front == original[..start] && last == original[start..end] by {
        if front + last == original[..start] + original[start..end] {
          assert front == (front + last)[..start] && last == (front + last)[start..];
        }
      }
    }
  }

  lemma NothingAssembled(s: Meta)
    requires |s.got| == NumPieces(s.total)
    ensures EndOf(s.total, 0) == 0 && Assembled(s, 0) == []
  {
  }

  lemma FittedSize(piece: Option<Bytes>, size: nat)
    ensures |Fitted(piece, size)| == size
  {
  }

  lemma AllEnds(total: nat)
    ensures EndOf(total, NumPieces(total)) == total
  {
  }

  /** The first copy of piece i that is not refused for its size. */
  function FirstAccepted(events: seq<Event>, i: nat): Option<Bytes> {
    if events == [] then None
    else
      var front, e := FirstAccepted(events[..|events| - 1], i), events[|events| - 1];
      if front.Some? then front
      else if e.Data? && e.piece == i && |e.data| <= METADATA_PIECE_SIZE then Some(e.data)
      else None
  }

  /** What is kept of a piece is the first copy accepted. */
  lemma {:induction false} KeepsFirst(total: nat, events: seq<Event>, i: nat)
    requires i < NumPieces(total)
    ensures var t := Run(Empty(total), events);
      |t.got| == NumPieces(total) && t.total == total && t.got[i] == FirstAccepted(events, i)
  {
    if events != [] {
      KeepsFirst(total, events[..|events| - 1], i);
    }
  }

  lemma {:induction false} FirstStays(events: seq<Event>, more: seq<Event>, i: nat)
    requires FirstAccepted(events, i).Some?
    ensures FirstAccepted(events + more, i) == FirstAccepted(events, i)
  {
    if more == [] {
      assert events + more == events;
    } else {
      var n := |more| - 1;
      FirstStays(events, more[..n], i);
      assert (events + more)[..|events + more| - 1] == events + more[..n];
    }
  }

  /** Is the first copy accepted of piece i, cut to size or filled up with zeros, that piece of the original? */
  ghost predicate RightFirst(original: Bytes, events: seq<Event>, i: nat)
    requires i < NumPieces(|original|)
  {
    Fitted(FirstAccepted(events, i), PieceSize(|original|, i)) == Slice(original, i)
  }

  /**
   * Over every run, whatever else is sent, refused, repeated or lost: at completion the buffer is the
   * metadata exactly when the first copy accepted of each piece was right.
   */
  lemma CompletionDelivers(original: Bytes, events: seq<Event>)
    requires Complete(Run(Empty(|original|), events))
    ensures var t := Run(Empty(|original|), events);
      && |t.got| == NumPieces(t.total) && t.total == |original|
      && (forall i :: 0 <= i < |t.got| ==> FirstAccepted(events, i).Some?)
      && (Assembled(t, |t.got|) == original <==> forall i :: 0 <= i < |t.got| ==> RightFirst(original, events, i))
  {
    hide Fitted, NumPieces, PieceSize, EndOf, Assembled, FirstAccepted, Run;
    BufferIff(original, events);
    var t := Run(Empty(|original|), events);
    forall i | 0 <= i < |t.got|
      ensures FirstAccepted(events, i).Some?
    {
      KeepsFirst(|original|, events, i);
    }
  }

  lemma BufferIff(original: Bytes, events: seq<Event>)
    ensures var t := Run(Empty(|original|), events);
      && |t.got| == NumPieces(t.total) && t.total == |original|
      && (Assembled(t, |t.got|) == original <==> forall i :: 0 <= i < |t.got| ==> RightFirst(original, events, i))
  {
    hide Fitted, NumPieces, PieceSize, EndOf, Assembled, FirstAccepted;
    var t := Run(Empty(|original|), events);
    AllEnds(|original|);
    assert original[..|original|] == original;
    AssembledIff(t, original, |t.got|);
    forall i | 0 <= i < |t.got|
      ensures RightFirst(original, events, i) <==> Fitted(t.got[i], PieceSize(t.total, i)) == Slice(original, i)
    {
      KeepsFirst(|original|, events, i);
    }
  }

  /** One wrong first copy is final: no later event makes the buffer the metadata. */
  lemma WrongCopyIsFinal(original: Bytes, events: seq<Event>, more: seq<Event>, i: nat)
    requires i < NumPieces(|original|) && FirstAccepted(events, i).Some? && !RightFirst(original, events, i)
    ensures var t := Run(Empty(|original|), events + more);
      |t.got| == NumPieces(t.total) && Assembled(t, |t.got|) != original
  {
    hide Fitted, NumPieces, PieceSize, EndOf, Assembled, FirstAccepted, Run;
    FirstStays(events, more, i);
    assert !RightFirst(original, events + more, i);
    BufferIff(original, events + more);
  }
}
