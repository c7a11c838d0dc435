/** The download session as a state machine over peer events. */
module SessionSpec {
  import opened ByteStrings
  import opened Wrappers
  import opened Address
  import opened Metainfo
  import opened InfoLengths
  import opened DiskSpans
  import opened DiskMapping
  import opened PickerSpec
  import opened PickerLaws
  import BF = Bitfield

  /** What the session knows of its torrent: the shape, and how a piece's bytes are checked. */
  datatype Torrent = Torrent(n: nat, pieceLength: nat, total: nat, hashes: seq<Hash>, sha1: Bytes -> Hash)

  /** `PieceStore::verify`. */
  predicate Verifies(tor: Torrent, piece: nat, data: Bytes) {
    piece < |tor.hashes| && tor.sha1(data) == tor.hashes[piece]
  }

  datatype PeerState = PeerState(choking: bool, outstanding: nat)

  datatype Write = Write(piece: nat, data: Bytes)

  /**
   * `disk` is the flat array of the files. `writes` are the issued writes not yet carried out; `verified`,
   * `stored` and `spoiled` record what this run verified, and which of its writes succeeded or failed.
   */
  datatype Session = Session(
    picker: Picker,
    peers: map<SocketAddr, PeerState>,
    bitfields: map<SocketAddr, set<nat>>,
    pending: map<SocketAddr, seq<BlockRequest>>,
    disk: Bytes,
    writes: seq<Write>,
    verified: map<nat, Bytes>,
    stored: set<nat>,
    spoiled: set<nat>)

  /** `Dialed` is a connection attempt; `Written` is the disk task finishing one of the issued writes. */
  datatype Event =
    | Dialed(addr: SocketAddr)
    | Connected(addr: SocketAddr)
    | BitfieldReceived(addr: SocketAddr, bytes: seq<bv8>)
    | HaveAll(addr: SocketAddr)
    | Have(addr: SocketAddr, piece: nat)
    | Unchoked(addr: SocketAddr)
    | Choked(addr: SocketAddr)
    | BlockArrived(addr: SocketAddr, piece: nat, offset: nat, data: Bytes)
    | Disconnected(addr: SocketAddr)
    | Written(index: nat, outcome: WriteOutcome)

  /** A failed write may leave anything in the piece it was writing. */
  datatype WriteOutcome = Succeeded | Failed(left: Bytes)

  const MIN_PIPELINE: nat := 64
  const MAX_PIPELINE: nat := 256

  // -------------------------------------------------------------- pipelines

  datatype Pick = Pick(piece: nat, sent: bool)

  /** One peer's pipeline being filled: its depth at that moment, and the picks made. */
  datatype Fill = Fill(addr: SocketAddr, depth: nat, picks: seq<Pick>)

  ghost function TakePick(s: Session, addr: SocketAddr, pick: Pick): (r: Session)
    requires Matched(s.picker)
    ensures Matched(r.picker)
  {
    if s.picker.pieceLength > 0 && Pickable(s.picker, pick.piece) then
      var t := s.(picker := AfterPick(s.picker, pick.piece));
      if pick.sent && addr in t.peers then
        t.(peers := t.peers[addr := t.peers[addr].(outstanding := t.peers[addr].outstanding + 1)],
           pending := t.pending[addr := PendingOf(t, addr) + [Requested(s.picker, pick.piece)]])
      else t
    else s
  }

  function PendingOf(s: Session, addr: SocketAddr): seq<BlockRequest> {
    if addr in s.pending then s.pending[addr] else []
  }

  /** Picks go on until the pipeline is full, nothing can be picked, or a send fails; a failed send keeps its block. */
  ghost predicate LegalPicks(s: Session, addr: SocketAddr, left: nat, picks: seq<Pick>)
    requires Matched(s.picker)
    decreases |picks|
  {
    && addr in s.bitfields && Shape(s.picker)
    && if picks == [] then left == 0 || LegalPick(s.picker, s.bitfields[addr], None)
       else
         && left > 0
         && LegalPick(s.picker, s.bitfields[addr], Some(picks[0].piece))
         && if picks[0].sent then LegalPicks(TakePick(s, addr, picks[0]), addr, left - 1, picks[1..])
            else |picks| == 1
  }

  /** Nothing is asked of a peer that is unknown, chokes us, has a full pipeline or has sent no bitfield. */
  predicate Idle(s: Session, addr: SocketAddr, depth: nat) {
    addr !in s.peers || s.peers[addr].choking || s.peers[addr].outstanding >= depth || addr !in s.bitfields
  }

  ghost predicate LegalFill(s: Session, f: Fill)
    requires Matched(s.picker)
  {
    && MIN_PIPELINE <= f.depth <= MAX_PIPELINE
    && if Idle(s, f.addr, f.depth) then f.picks == []
       else LegalPicks(s, f.addr, f.depth - s.peers[f.addr].outstanding, f.picks)
  }

  ghost function TakePicks(s: Session, addr: SocketAddr, picks: seq<Pick>): (r: Session)
    requires Matched(s.picker)
    ensures Matched(r.picker)
    decreases |picks|
  {
    if picks == [] then s else TakePicks(TakePick(s, addr, picks[0]), addr, picks[1..])
  }

  ghost predicate LegalFills(s: Session, fills: seq<Fill>)
    requires Matched(s.picker)
    decreases |fills|
  {
    fills == [] || (LegalFill(s, fills[0]) && LegalFills(TakePicks(s, fills[0].addr, fills[0].picks), fills[1..]))
  }

  ghost function TakeFills(s: Session, fills: seq<Fill>): (r: Session)
    requires Matched(s.picker)
    ensures Matched(r.picker)
    decreases |fills|
  {
    if fills == [] then s else TakeFills(TakePicks(s, fills[0].addr, fills[0].picks), fills[1..])
  }

  // ----------------------------------------------------------------- events

  /** Give a peer's pending blocks back to the picker. */
  function Unassign(p: Picker, blocks: seq<BlockRequest>): (r: Picker)
    requires Matched(p)
    ensures Matched(r)
    decreases |blocks|
  {
    if blocks == [] then p else Unassign(UnassignBlock(p, blocks[0].piece, blocks[0].offset), blocks[1..])
  }

  function Release(s: Session, addr: SocketAddr): (r: Session)
    requires Matched(s.picker)
    ensures Matched(r.picker)
  {
    if addr in s.pending then s.(picker := Unassign(s.picker, s.pending[addr]), pending := s.pending[addr := []]) else s
  }

  function WithPeer(s: Session, addr: SocketAddr, f: PeerState -> PeerState): Session {
    if addr in s.peers then s.(peers := s.peers[addr := f(s.peers[addr])]) else s
  }

  function Choke(p: PeerState): PeerState {
    PeerState(true, 0)
  }

  function Unchoke(p: PeerState): PeerState {
    p.(choking := false)
  }

  function Answered(p: PeerState): PeerState {
    p.(outstanding := if p.outstanding > 0 then p.outstanding - 1 else 0)
  }

  /** A peer's pending list without the block that came. */
  function Without(blocks: seq<BlockRequest>, piece: nat, offset: nat): seq<BlockRequest> {
    if blocks == [] then []
    else if blocks[0].piece == piece && blocks[0].offset == offset then Without(blocks[1..], piece, offset)
    else [blocks[0]] + Without(blocks[1..], piece, offset)
  }

  /** A block that came is no longer pending at its peer. */
  function BeforeBlock(s: Session, addr: SocketAddr, piece: nat, offset: nat): (t: Session)
    ensures t.picker == s.picker
  {
    var t := if addr in s.pending then s.(pending := s.pending[addr := Without(s.pending[addr], piece, offset)]) else s;
    WithPeer(t, addr, Answered)
  }

  /** A completed piece is checked: marked verified and its write issued, or given up. */
  function Settled(tor: Torrent, s: Session, piece: nat, bytes: Bytes): (r: Session)
    requires Matched(s.picker)
    ensures Matched(r.picker)
  {
    if Verifies(tor, piece, bytes) then
      s.(picker := MarkVerified(s.picker, piece), writes := s.writes + [Write(piece, bytes)],
         verified := s.verified[piece := bytes])
    else s.(picker := PieceFailed(s.picker, piece))
  }

  /** The picker's verdict on a block. */
  function AcceptBlock(tor: Torrent, s: Session, piece: nat, offset: nat, data: Bytes): (r: Session)
    requires Matched(s.picker)
    ensures Matched(r.picker)
  {
    var (p, result) := BlockReceived(s.picker, piece, offset, data);
    if result.PieceComplete? then Settled(tor, s.(picker := p), piece, result.data) else s.(picker := p)
  }

  /** The disk after write w: in place on success, its piece overwritten with anything on failure. */
  function DiskAfter(tor: Torrent, disk: Bytes, w: Write, outcome: WriteOutcome): Bytes {
    var data := if outcome.Succeeded? then w.data else outcome.left;
    if |data| == |w.data| && PieceStart(tor.pieceLength, w.piece) + |data| <= |disk|
    then WritePieceFlat(disk, tor.pieceLength, w.piece, data) else disk
  }

  /** The pieces a bitfield message announces. One with too few bytes for the torrent makes the original panic. */
  function Announced(tor: Torrent, bytes: seq<bv8>): (pieces: set<nat>)
    ensures forall i :: i in pieces ==> i < tor.n
  {
    if BF.ByteLength(tor.n) <= |bytes| then BF.BitSet(bytes, tor.n) else {}
  }

  /** What an event does before pipelines are refilled. */
  function Base(tor: Torrent, s: Session, e: Event): (r: Session)
    requires Matched(s.picker)
    ensures Matched(r.picker)
  {
    match e
    case Dialed(addr) => s.(peers := s.peers[addr := PeerState(true, 0)])
    case Connected(addr) => s.(bitfields := s.bitfields[addr := {}], pending := s.pending[addr := []])
    case BitfieldReceived(addr, bytes) =>
      var pieces := Announced(tor, bytes);
      s.(picker := PeerHasBitfield(s.picker, pieces), bitfields := s.bitfields[addr := pieces])
    case HaveAll(addr) =>
      s.(picker := PeerHasBitfield(s.picker, Range(tor.n)), bitfields := s.bitfields[addr := Range(tor.n)])
    case Have(addr, piece) =>
      var t := s.(picker := PeerHasPiece(s.picker, piece));
      if addr in t.bitfields && piece < tor.n then t.(bitfields := t.bitfields[addr := t.bitfields[addr] + {piece}]) else t
    case Unchoked(addr) => WithPeer(s, addr, Unchoke)
    case Choked(addr) => WithPeer(Release(s, addr), addr, Choke)
    case BlockArrived(addr, piece, offset, data) =>
      AcceptBlock(tor, BeforeBlock(s, addr, piece, offset), piece, offset, data)
    case Disconnected(addr) =>
      var t := Release(s, addr);
      var p := if addr in t.bitfields then PeerDisconnected(t.picker, t.bitfields[addr]) else t.picker;
      t.(picker := p, peers := t.peers - {addr}, pending := t.pending - {addr}, bitfields := t.bitfields - {addr})
    case Written(index, outcome) =>
      if index < |s.writes| then
        var w := s.writes[index];
        s.(disk := DiskAfter(tor, s.disk, w, outcome),
           writes := s.writes[..index] + s.writes[index + 1..],
           stored := if outcome.Succeeded? then s.stored + {w.piece} else s.stored,
           spoiled := if outcome.Succeeded? then s.spoiled else s.spoiled + {w.piece})
      else s
  }

  /** Which pipelines an event refills: its peer's, every connected peer's in some order, or none. */
  ghost predicate RefillsFor(s: Session, e: Event, fills: seq<Fill>) {
    match e
    case Dialed(_) => fills == []
    case Connected(_) => fills == []
    case Written(_, _) => fills == []
    case Choked(_) => RefillsAll(s, fills)
    case Disconnected(_) => RefillsAll(s, fills)
    case _ => |fills| == 1 && fills[0].addr == e.addr
  }

  ghost predicate RefillsAll(s: Session, fills: seq<Fill>) {
    FillsEach(s.peers.Keys, fills)
  }

  /** One fill for each of the peers, in any order. */
  ghost predicate FillsEach(addrs: set<SocketAddr>, fills: seq<Fill>) {
    && (forall i, j :: 0 <= i < j < |fills| ==> fills[i].addr != fills[j].addr)
    && (forall a :: a in addrs <==> exists i :: 0 <= i < |fills| && fills[i].addr == a)
  }

  /** An event that can happen: the loop runs until no piece is missing; writes may finish later. */
  ghost predicate Possible(tor: Torrent, s: Session, e: Event) {
    && (!e.Written? ==> Missing(s.picker) != {})
    && match e
       case Dialed(addr) => addr !in s.peers
       case BitfieldReceived(_, bytes) => BF.ByteLength(tor.n) <= |bytes|
       case Written(index, outcome) =>
         index < |s.writes| && (outcome.Failed? ==> |outcome.left| == |s.writes[index].data|)
       case _ => true
  }

  ghost function Step(tor: Torrent, s: Session, e: Event, fills: seq<Fill>): (r: Session)
    requires Matched(s.picker)
    ensures Matched(r.picker)
  {
    TakeFills(Base(tor, s, e), fills)
  }

  ghost predicate Legal(tor: Torrent, s: Session, e: Event, fills: seq<Fill>)
    requires Matched(s.picker)
  {
    Possible(tor, s, e) && RefillsFor(Base(tor, s, e), e, fills) && LegalFills(Base(tor, s, e), fills)
  }

  // ------------------------------------------------------------------- runs

  datatype Act = Act(event: Event, fills: seq<Fill>)

  ghost function Run(tor: Torrent, s: Session, acts: seq<Act>): (r: Session)
    requires Matched(s.picker)
    ensures Matched(r.picker)
    decreases |acts|
  {
    if acts == [] then s
    else
      var t := Run(tor, s, acts[..|acts| - 1]);
      Step(tor, t, acts[|acts| - 1].event, acts[|acts| - 1].fills)
  }

  ghost predicate LegalRun(tor: Torrent, s: Session, acts: seq<Act>)
    requires Matched(s.picker)
    decreases |acts|
  {
    acts == []
    || (LegalRun(tor, s, acts[..|acts| - 1])
        && Legal(tor, Run(tor, s, acts[..|acts| - 1]), acts[|acts| - 1].event, acts[|acts| - 1].fills))
  }

  /** A session that has adopted what the disk already holds and knows no peer yet. */
  function Opened(picker: Picker, disk: Bytes): Session {
    Session(picker, map[], map[], map[], disk, [], map[], {}, {})
  }
}
