/** The buffer object of a magnet download, updated in place. */
module MetadataBuffer {
  import opened ByteStrings
  import opened Wrappers
  import opened Counting
  import opened Address
  import opened MetadataSpec

  /** The accepted pieces stand in the buffer at their offsets. */
  ghost predicate Placed(bytes: Bytes, got: seq<Option<Bytes>>) {
    |got| == NumPieces(|bytes|) && forall i :: 0 <= i < |got| ==> InPlace(bytes, got, i)
  }

  /** The flags say which pieces have been accepted. */
  ghost predicate Flagged(flags: seq<bool>, got: seq<Option<Bytes>>) {
    |flags| == |got| && forall i :: 0 <= i < |got| ==> (flags[i] <==> got[i].Some?)
  }

  lemma PlaceOne(before: Bytes, after: Bytes, got: seq<Option<Bytes>>, piece: nat, data: Bytes)
    requires Placed(before, got)
    requires piece < |got| && got[piece] == None && |data| <= METADATA_PIECE_SIZE
    requires var offset := piece * METADATA_PIECE_SIZE;
      var end := if offset + |data| < |before| then offset + |data| else |before|;
      offset <= end && after == before[..offset] + data[..end - offset] + before[end..]
    ensures Placed(after, got[piece := Some(data)])
  {
    hide InPlace;
    var later := got[piece := Some(data)];
    forall i | 0 <= i < |later|
      ensures InPlace(after, later, i)
    {
      WriteInPlace(before, after, got, piece, data, i);
    }
  }

  lemma FlagOne(flags: seq<bool>, got: seq<Option<Bytes>>, piece: nat, data: Bytes)
    requires Flagged(flags, got) && piece < |got| && !flags[piece]
    ensures got[piece] == None
    ensures Flagged(flags[piece := true], got[piece := Some(data)])
    ensures CountTrue(flags[piece := true]) == CountTrue(flags) + 1
  {
    CountUpdate(flags, piece);
  }

  lemma FlagAt(flags: seq<bool>, got: seq<Option<Bytes>>)
    requires Flagged(flags, got)
    ensures forall i :: 0 <= i < |flags| ==> (flags[i] <==> got[i].Some?)
  {
  }

  lemma DataKeepsInv(s: Meta, piece: nat, data: Bytes)
    requires Inv(s)
    ensures Inv(MetadataSpec.OnData(s, piece, data))
  {
  }

  /** The count of flags reaches their number exactly when every piece has been accepted. */
  lemma FlagsFull(flags: seq<bool>, s: Meta)
    requires Flagged(flags, s.got)
    ensures CountTrue(flags) == |flags| <==> Complete(s)
  {
    CountFull(flags);
  }

  class MetadataBuffer {
    const totalSize: nat
    const numPieces: nat
    const buffer: array<byte>
    const received: array<bool>
    const askedFrom: array<Option<SocketAddr>>
    var receivedCount: nat
    /** The data first accepted for each piece. */
    ghost var got: seq<Option<Bytes>>

    ghost function Model(): Meta
      reads this, askedFrom
    {
      Meta(totalSize, got, askedFrom[..])
    }

    ghost predicate Valid()
      reads this, buffer, received, askedFrom
    {
      && numPieces == NumPieces(totalSize) == received.Length == askedFrom.Length == |got|
      && buffer.Length == totalSize
      && Inv(Model())
      && Flagged(received[..], got)
      && receivedCount == CountTrue(received[..])
      && Placed(buffer[..], got)
    }

    constructor (totalSize: nat)
      ensures Valid() && fresh(buffer) && fresh(received) && fresh(askedFrom)
      ensures Model() == Empty(totalSize)
    {
      var n := NumPieces(totalSize);
      this.totalSize := totalSize;
      numPieces := n;
      buffer := new byte[totalSize](_ => 0);
      received := new bool[n](_ => false);
      askedFrom := new Option<SocketAddr>[n](_ => None);
      receivedCount := 0;
      got := seq(n, _ => None);
      new;
      hide InPlace;
      assert askedFrom[..] == seq(numPieces, _ => None);
      CountNone(received[..]);
      forall i | 0 <= i < numPieces
        ensures InPlace(buffer[..], got, i)
      {
        ZerosInPlace(buffer[..], i);
      }
    }

    /** Returns whether the download is now complete. */
    method OnData(piece: nat, data: Bytes) returns (complete: bool)
      requires Valid()
      modifies this, buffer, received, askedFrom
      ensures Valid() && Model() == MetadataSpec.OnData(old(Model()), piece, data)
      ensures complete <==> Model() != old(Model()) && Complete(Model())
    {
      hide Placed, Flagged, Inv, Complete;
      FlagAt(received[..], got);
      FlagsFull(received[..], Model());
      if piece >= numPieces || received[piece] {
        return false;
      }
      if |data| > METADATA_PIECE_SIZE {
        return false;
      }
      var offset := piece * METADATA_PIECE_SIZE;
      if offset >= totalSize {
        return false;
      }
      var end := if offset + |data| < totalSize then offset + |data| else totalSize;
      ghost var before, flags, s := buffer[..], received[..], Model();
      FlagOne(flags, got, piece, data);
      CopyIn(offset, end, data);
      PlaceOne(before, buffer[..], got, piece, data);
      received[piece] := true;
      receivedCount := receivedCount + 1;
      askedFrom[piece] := None;
      got := got[piece := Some(data)];
      assert received[..] == flags[piece := true];
      assert askedFrom[..] == s.askedFrom[piece := None];
      DataKeepsInv(s, piece, data);
      FlagsFull(received[..], Model());
      complete := IsComplete();
    }

    /** Overwrite bytes [offset, end) of the buffer with the first bytes of the data. */
    method CopyIn(offset: nat, end: nat, data: Bytes)
      requires offset <= end <= buffer.Length && end - offset <= |data|
      modifies buffer
      ensures buffer[..] == old(buffer[..])[..offset] + data[..end - offset] + old(buffer[..])[end..]
    {
      forall k | offset <= k < end {
        buffer[k] := data[k - offset];
      }
    }

    method OnReject(piece: nat)
      requires Valid()
      modifies askedFrom
      ensures Valid() && Model() == MetadataSpec.OnReject(old(Model()), piece)
    {
      if piece < numPieces {
        askedFrom[piece] := None;
        assert askedFrom[..] == old(askedFrom[..])[piece := None];
      }
    }

    method OnPeerLost(addr: SocketAddr)
      requires Valid()
      modifies askedFrom
      ensures Valid() && Model() == MetadataSpec.OnPeerLost(old(Model()), addr)
    {
      ghost var before := askedFrom[..];
      for i := 0 to numPieces
        invariant forall k :: 0 <= k < i ==> askedFrom[k] == if before[k] == Some(addr) then None else before[k]
        invariant forall k :: i <= k < numPieces ==> askedFrom[k] == before[k]
      {
        if askedFrom[i] == Some(addr) {
          askedFrom[i] := None;
        }
      }
      assert askedFrom[..] == MetadataSpec.OnPeerLost(old(Model()), addr).askedFrom;
    }

    method NextRequest(addr: SocketAddr) returns (r: Option<nat>)
      requires Valid()
      modifies askedFrom
      ensures Valid() && r == FirstFree(old(Model()), 0)
      ensures Model() == if r.Some? then Assign(old(Model()), r.value, addr) else old(Model())
    {
      for i := 0 to numPieces
        invariant askedFrom[..] == old(askedFrom[..])
        invariant FirstFree(Model(), 0) == FirstFree(Model(), i)
      {
        assert askedFrom[i] == Model().askedFrom[i];
        if !received[i] && askedFrom[i].None? {
          askedFrom[i] := Some(addr);
          assert askedFrom[..] == old(askedFrom[..])[i := Some(addr)];
          return Some(i);
        }
      }
      r := None;
    }

    predicate IsComplete()
      reads this
    {
      receivedCount == numPieces
    }

    /** Release the buffer if it hashes to the info hash. */
    method Verify(sha1: Bytes -> Bytes, infoHash: Bytes) returns (r: Option<Bytes>)
      requires Valid()
      ensures r == if sha1(Assembled(Model(), numPieces)) == infoHash then Some(Assembled(Model(), numPieces)) else None
    {
      InPlaceIsAssembled(buffer[..], Model(), numPieces);
      assert buffer[..totalSize] == buffer[..];
      r := if sha1(buffer[..]) == infoHash then Some(buffer[..]) else None;
    }
  }

  /**
   * Ask one peer for every free piece. `room` sends fit its command channel; the next one fails, and
   * its piece is released again.
   */
  method RequestMetadataPieces(buf: MetadataBuffer, addr: SocketAddr, room: nat)
    requires buf.Valid()
    modifies buf.askedFrom
    ensures buf.Valid() && buf.Model() == RequestLoop(old(buf.Model()), addr, room)
  {
    var left := room;
    while true
      invariant buf.Valid()
      invariant RequestLoop(buf.Model(), addr, left) == RequestLoop(old(buf.Model()), addr, room)
      decreases FreeCount(buf.Model())
    {
      ghost var s := buf.Model();
      var piece := buf.NextRequest(addr);
      if piece.None? {
        return;
      }
      AssignShrinks(s, piece.value, addr);
      var sent := left > 0;
      if !sent {
        buf.OnReject(piece.value);
        return;
      }
      left := left - 1;
    }
  }

  // ------------------------------------------------------ download_metadata

  const MAX_METADATA_SIZE: nat := 10 * 1024 * 1024

  /** What a peer connection reports during a metadata download. */
  datatype PeerEvent =
    | ExtendedHandshake(extension: Option<byte>, metadataSize: Option<u64>)
    | MetadataData(piece: u32, data: Bytes)
    | MetadataReject(piece: u32)
    | Disconnected

  /** The state of `download_metadata`: no size known yet, or a buffer being filled. */
  class MetadataDownload {
    var buf: MetadataBuffer?
    var peerExt: map<SocketAddr, byte>

    constructor ()
      ensures buf == null && peerExt == map[]
    {
      buf := null;
      peerExt := map[];
    }

    ghost function Repr(): set<object>
      reads this
    {
      if buf == null then {this} else {this, buf} + {buf.buffer as object} + {buf.received} + {buf.askedFrom}
    }

    ghost predicate Valid()
      reads this, Repr()
    {
      buf != null ==> buf.Valid() && 0 < buf.totalSize <= MAX_METADATA_SIZE
    }

    /** `request_metadata_pieces`, for a peer that told us its extension id. */
    method Request(addr: SocketAddr, room: nat)
      requires Valid()
      modifies Repr()
      ensures Valid() && buf == old(buf) && peerExt == old(peerExt)
      ensures buf != null ==>
        buf.Model() == if addr in peerExt then RequestLoop(old(buf.Model()), addr, room) else old(buf.Model())
    {
      if buf == null || addr !in peerExt {
        return;
      }
      RequestMetadataPieces(buf, addr, room);
    }

    /** One peer event; returns whether all pieces have been received. */
    method HandleEvent(addr: SocketAddr, event: PeerEvent, room: nat) returns (done: bool)
      requires Valid()
      modifies Repr()
      ensures Valid()
      ensures peerExt == ExtAfter(old(peerExt), addr, event)
      ensures old(buf) == null && !(AcceptableSize(event)) ==> buf == null && !done
      ensures old(buf) == null && AcceptableSize(event) ==>
        buf != null && fresh(buf) && !done
        && buf.Model() == RequestLoop(Empty(event.metadataSize.value), addr, room)
      ensures old(buf) != null ==>
        buf == old(buf) && buf.Model() == Run(old(buf.Model()), Effects(old(buf.Model()), peerExt, addr, event, room))
      ensures done <==> old(buf) != null && Finishes(old(buf.Model()), event)
    {
      hide RequestLoop, Run;
      done := false;
      if buf != null {
        EffectsAre(buf.Model(), peerExt, addr, event, room);
      }
      match event
      case ExtendedHandshake(extension, metadataSize) =>
        if extension.Some? && metadataSize.Some? {
          var size := metadataSize.value;
          if size == 0 || size > MAX_METADATA_SIZE {
            return;
          }
          peerExt := peerExt[addr := extension.value];
          if buf == null {
            buf := new MetadataBuffer(size);
          }
          Request(addr, room);
        }
      case MetadataData(piece, data) =>
        if buf != null {
          done := buf.OnData(piece, data);
          if done {
            return;
          }
        }
        Request(addr, room);
      case MetadataReject(piece) =>
        if buf != null {
          buf.OnReject(piece);
        }
      case Disconnected =>
        peerExt := peerExt - {addr};
        if buf != null {
          buf.OnPeerLost(addr);
        }
    }
  }

  /** A handshake naming the metadata extension and a size of at most 10 MiB, not zero. */
  predicate AcceptableSize(event: PeerEvent) {
    event.ExtendedHandshake? && event.extension.Some? && event.metadataSize.Some?
    && 0 < event.metadataSize.value <= MAX_METADATA_SIZE
  }

  function ExtAfter(ext: map<SocketAddr, byte>, addr: SocketAddr, event: PeerEvent): map<SocketAddr, byte> {
    if AcceptableSize(event) then ext[addr := event.extension.value]
    else if event.Disconnected? then ext - {addr}
    else ext
  }

  ghost predicate Finishes(s: Meta, event: PeerEvent)
    requires |s.askedFrom| == |s.got|
  {
    event.MetadataData? && OnData(s, event.piece, event.data) != s && Complete(OnData(s, event.piece, event.data))
  }

  /** The buffer events one peer event amounts to. */
  ghost function Effects(s: Meta, ext: map<SocketAddr, byte>, addr: SocketAddr, event: PeerEvent, room: nat): seq<Event>
    requires |s.askedFrom| == |s.got|
  {
    match event
    case ExtendedHandshake(_, _) => if AcceptableSize(event) then [Ask(addr, room)] else []
    case MetadataData(piece, data) =>
      if Finishes(s, event) || addr !in ext then [Data(piece, data)] else [Data(piece, data), Ask(addr, room)]
    case MetadataReject(piece) => [Reject(piece)]
    case Disconnected => [Lost(addr)]
  }

  /**
   * What a peer event comes to: the first acceptable copy of a piece is kept, a reject frees its piece, and a
   * lost peer is asked for nothing any more. A peer that has said how to be asked is asked for every piece
   * still free, its channel having room.
   */
  lemma EventOutcome(s: Meta, ext: map<SocketAddr, byte>, addr: SocketAddr, event: PeerEvent, room: nat, i: nat)
    requires Inv(s) && i < |s.got|
    ensures var t := Run(s, Effects(s, ext, addr, event, room));
      && |t.got| == |t.askedFrom| == |s.got|
      && t.got[i] == (if event.MetadataData? && event.piece == i && s.got[i].None? && |event.data| <= 16384
                      then Some(event.data) else s.got[i])
      && (event.MetadataReject? ==> t.askedFrom[i] == if event.piece == i then None else s.askedFrom[i])
      && (event.Disconnected? ==>
            t.askedFrom[i] == if s.askedFrom[i] == Some(addr) then None else s.askedFrom[i])
      && (AcceptableSize(event) || (event.MetadataData? && addr in ext && !Finishes(s, event)) ==>
            (FreeCount(s) <= room ==> !Free(t, i)))
  {
    hide RequestLoop, Run;
    EffectsAre(s, ext, addr, event, room);
    LoopEffect(s, addr, room);
    if event.MetadataData? {
      var t := MetadataSpec.OnData(s, event.piece, event.data);
      LoopEffect(t, addr, room);
      DataFrees(s, event.piece, event.data);
    }
  }

  lemma DataFrees(s: Meta, piece: nat, data: Bytes)
    requires Inv(s)
    ensures FreeCount(MetadataSpec.OnData(s, piece, data)) <= FreeCount(s)
  {
    var t := MetadataSpec.OnData(s, piece, data);
    var before := set i | 0 <= i < |s.got| && Free(s, i);
    var after := set i | 0 <= i < |t.got| && Free(t, i);
    assert after <= before;
    assert before == after + (before - after);
  }

  lemma EffectsAre(s: Meta, ext: map<SocketAddr, byte>, addr: SocketAddr, event: PeerEvent, room: nat)
    requires |s.askedFrom| == |s.got|
    ensures Run(s, [Ask(addr, room)]) == RequestLoop(s, addr, room)
    ensures Run(s, []) == s
    ensures Run(s, [Lost(addr)]) == OnPeerLost(s, addr)
    ensures event.MetadataReject? ==> Run(s, [Reject(event.piece)]) == OnReject(s, event.piece)
    ensures event.MetadataData? ==>
      var t := OnData(s, event.piece, event.data);
      && Run(s, [Data(event.piece, event.data)]) == t
      && Run(s, [Data(event.piece, event.data), Ask(addr, room)]) == RequestLoop(t, addr, room)
  {
    RunNothing(s);
    RunOne(s, Ask(addr, room));
    RunOne(s, Lost(addr));
    if event.MetadataReject? {
      RunOne(s, Reject(event.piece));
    } else if event.MetadataData? {
      RunOne(s, Data(event.piece, event.data));
      RunTwo(s, Data(event.piece, event.data), Ask(addr, room));
    }
  }

  lemma RunNothing(s: Meta)
    requires |s.askedFrom| == |s.got|
    ensures Run(s, []) == s
  {
  }

  lemma RunOne(s: Meta, e: Event)
    requires |s.askedFrom| == |s.got|
    ensures Run(s, [e]) == Step(s, e)
  {
    assert [e][..0] == [];
  }

  lemma RunTwo(s: Meta, e: Event, f: Event)
    requires |s.askedFrom| == |s.got|
    ensures Run(s, [e, f]) == Step(Step(s, e), f)
  {
    assert [e, f][..1] == [e];
    RunOne(s, e);
  }
}
