/** The piece picker as a value: which blocks are received, asked for, or free. */
module PickerSpec {
  import opened ByteStrings
  import opened Wrappers
  import opened InfoLengths
  import opened DiskSpans

  const U16_MAX: nat := 0xFFFF
  const U8_MAX: nat := 0xFF

  datatype BlockRequest = BlockRequest(piece: nat, offset: nat, length: nat)

  datatype BlockResult = Duplicate | Progress(newBytes: nat) | PieceComplete(data: Bytes)

  datatype Mode = RandomFirst | RarestFirst | Endgame

  // ------------------------------------------------------------ one piece

  /** A piece being downloaded: the blocks received, the blocks received or asked for, and its bytes. */
  datatype Prog = Prog(length: nat, received: seq<bool>, asked: seq<bool>, data: Bytes, activePeers: nat)

  function NumBlocks(length: nat): nat {
    (length + BLOCK_SIZE - 1) / BLOCK_SIZE
  }

  function BlockLength(length: nat, i: nat): nat {
    if i + 1 == NumBlocks(length) then
      var remainder := length % BLOCK_SIZE;
      if remainder == 0 then BLOCK_SIZE else remainder
    else BLOCK_SIZE
  }

  function NewProg(length: nat): Prog {
    Prog(length, seq(NumBlocks(length), _ => false), seq(NumBlocks(length), _ => false), seq(length, _ => 0), 0)
  }

  ghost predicate ProgInv(p: Prog) {
    && p.length > 0
    && |p.received| == |p.asked| == NumBlocks(p.length)
    && |p.data| == p.length
    && p.activePeers <= U8_MAX
    && forall i :: 0 <= i < |p.received| && p.received[i] ==> p.asked[i]
  }

  predicate Free(p: Prog, i: nat)
    requires |p.received| == |p.asked|
  {
    i < |p.received| && !p.received[i] && !p.asked[i]
  }

  /** The least free block from i on, found by a full scan. */
  function LeastFree(p: Prog, i: nat): (r: Option<nat>)
    requires i <= |p.received| == |p.asked|
    ensures r.Some? ==> i <= r.value && Free(p, r.value) && forall j :: i <= j < r.value ==> !Free(p, j)
    ensures r.None? ==> forall j :: i <= j < |p.received| ==> !Free(p, j)
    decreases |p.received| - i
  {
    if i == |p.received| then None else if Free(p, i) then Some(i) else LeastFree(p, i + 1)
  }

  predicate HasFree(p: Prog)
    requires |p.received| == |p.asked|
  {
    LeastFree(p, 0).Some?
  }

  predicate AllReceived(p: Prog) {
    forall i :: 0 <= i < |p.received| ==> p.received[i]
  }

  function Ask(p: Prog, i: nat): Prog
    requires i < |p.asked|
  {
    p.(asked := p.asked[i := true], activePeers := if p.activePeers < U8_MAX then p.activePeers + 1 else U8_MAX)
  }

  /** Is this the first copy of a block of the piece? */
  predicate IsNew(p: Prog, i: nat) {
    i < |p.received| && !p.received[i]
  }

  function PutData(p: Prog, offset: nat, data: Bytes): Bytes {
    if offset + |data| <= |p.data| then Splice(p.data, offset, data) else p.data
  }

  /** The block is marked received before its offset and length are looked at. */
  function ReceiveBlock(p: Prog, offset: nat, data: Bytes): Prog
    requires |p.received| == |p.asked| && IsNew(p, offset / BLOCK_SIZE)
  {
    var i := offset / BLOCK_SIZE;
    p.(received := p.received[i := true], asked := p.asked[i := true], data := PutData(p, offset, data))
  }

  function Unask(p: Prog, i: nat): Prog
    requires |p.received| == |p.asked|
  {
    if i < |p.asked| && !p.received[i] then p.(asked := p.asked[i := false]) else p
  }

  // ------------------------------------------------------------ the picker

  datatype Picker = Picker(
    numPieces: nat,
    pieceLength: nat,
    total: nat,
    availability: seq<nat>,
    have: set<nat>,
    inProgress: map<nat, Prog>,
    mode: Mode,
    verified: nat)

  function NewPicker(n: nat, pieceLength: nat, total: nat): Picker {
    Picker(n, pieceLength, total, seq(n, _ => 0), {}, map[], RandomFirst, 0)
  }

  function LengthOf(p: Picker, piece: nat): nat
    requires p.pieceLength > 0
  {
    PickerPieceLength(p.numPieces, p.pieceLength, p.total, piece)
  }

  ghost predicate Shape(p: Picker) {
    && Tiled(p.numPieces, p.pieceLength, p.total)
    && |p.availability| == p.numPieces
    && (forall i :: 0 <= i < p.numPieces ==> p.availability[i] <= U16_MAX)
    && (forall i :: i in p.have ==> i < p.numPieces)
    && (forall i :: i in p.inProgress ==>
          i < p.numPieces && ProgInv(p.inProgress[i]) && p.inProgress[i].length == LengthOf(p, i))
  }

  /** What every reachable picker satisfies on top of its shape. */
  ghost predicate Inv(p: Picker) {
    && Shape(p)
    && p.inProgress.Keys !! p.have
    && (forall i :: i in p.inProgress ==> !AllReceived(p.inProgress[i]))
    && p.verified == |p.have|
  }

  function SaturatingInc(a: nat): nat {
    if a < U16_MAX then a + 1 else U16_MAX
  }

  function SaturatingDec(a: nat): nat {
    if a > 0 then a - 1 else 0
  }

  /** One more holder of each of the peer's pieces, in 16 bits that saturate. */
  function CountedUp(counts: seq<nat>, peer: set<nat>): seq<nat> {
    seq(|counts|, i requires 0 <= i < |counts| => if i in peer then SaturatingInc(counts[i]) else counts[i])
  }

  function CountedDown(counts: seq<nat>, peer: set<nat>): seq<nat> {
    seq(|counts|, i requires 0 <= i < |counts| => if i in peer then SaturatingDec(counts[i]) else counts[i])
  }

  function PeerHasBitfield(p: Picker, peer: set<nat>): Picker {
    p.(availability := CountedUp(p.availability, peer))
  }

  function PeerHasPiece(p: Picker, piece: nat): Picker {
    if piece < |p.availability| then p.(availability := p.availability[piece := SaturatingInc(p.availability[piece])])
    else p
  }

  function PeerDisconnected(p: Picker, peer: set<nat>): Picker {
    p.(availability := CountedDown(p.availability, peer))
  }

  function CheckMode(p: Picker): Picker {
    var remaining := p.numPieces - |p.have|;
    if p.mode != Endgame && remaining > 0 && |p.inProgress| == remaining then p.(mode := Endgame) else p
  }

  /** In-progress pieces the peer has that still hold a free block. */
  ghost predicate CanContinue(p: Picker, peer: set<nat>, i: nat)
    requires Shape(p)
  {
    i in p.inProgress && i in peer && HasFree(p.inProgress[i])
  }

  /** Pieces the peer has that we neither have nor started. */
  predicate CanStart(p: Picker, peer: set<nat>, i: nat) {
    i < p.numPieces && i in peer && i !in p.have && i !in p.inProgress
  }

  /**
   * The picks `pick_block` may make. The order of equally contended pieces and of equally rare pieces is
   * left open.
   */
  ghost predicate LegalPick(p: Picker, peer: set<nat>, choice: Option<nat>)
    requires Shape(p)
  {
    match choice
    case Some(i) =>
      || (CanContinue(p, peer, i)
          && forall j: nat :: CanContinue(p, peer, j) ==> p.inProgress[i].activePeers <= p.inProgress[j].activePeers)
      || ((forall j: nat :: !CanContinue(p, peer, j)) && CanStart(p, peer, i)
          && forall j: nat :: CanStart(p, peer, j) ==> p.availability[i] <= p.availability[j])
    case None => forall j: nat :: !CanContinue(p, peer, j) && !CanStart(p, peer, j)
  }

  function ProgOf(p: Picker, i: nat): Prog
    requires p.pieceLength > 0
  {
    if i in p.inProgress then p.inProgress[i] else NewProg(LengthOf(p, i))
  }

  ghost predicate Pickable(p: Picker, i: nat)
    requires p.pieceLength > 0
  {
    |ProgOf(p, i).received| == |ProgOf(p, i).asked| && HasFree(ProgOf(p, i))
  }

  /** The request a pick of piece i makes: its least free block. */
  ghost function Requested(p: Picker, i: nat): BlockRequest
    requires p.pieceLength > 0 && Pickable(p, i)
  {
    var b := LeastFree(ProgOf(p, i), 0).value;
    BlockRequest(i, b * BLOCK_SIZE, BlockLength(ProgOf(p, i).length, b))
  }

  ghost function AfterPick(p: Picker, i: nat): Picker
    requires p.pieceLength > 0 && Pickable(p, i)
  {
    var b := LeastFree(ProgOf(p, i), 0).value;
    var q := p.(inProgress := p.inProgress[i := Ask(ProgOf(p, i), b)]);
    if i in p.inProgress then q else CheckMode(q)
  }

  /** Every in-progress piece has one asked flag per received flag. */
  ghost predicate Matched(p: Picker) {
    forall i :: i in p.inProgress ==> |p.inProgress[i].received| == |p.inProgress[i].asked|
  }

  function BlockReceived(p: Picker, piece: nat, offset: nat, data: Bytes): (r: (Picker, BlockResult))
    requires Matched(p)
    ensures Matched(r.0)
  {
    if piece !in p.inProgress || !IsNew(p.inProgress[piece], offset / BLOCK_SIZE) then (p, Duplicate)
    else
      var after := ReceiveBlock(p.inProgress[piece], offset, data);
      if AllReceived(after) then (p.(inProgress := p.inProgress - {piece}), PieceComplete(after.data))
      else (p.(inProgress := p.inProgress[piece := after]), Progress(|data|))
  }

  function PieceFailed(p: Picker, piece: nat): (r: Picker)
    ensures Matched(p) ==> Matched(r)
  {
    p.(inProgress := p.inProgress - {piece})
  }

  function CountVerified(p: Picker, piece: nat): Picker {
    p.(have := if piece < p.numPieces then p.have + {piece} else p.have,
       verified := p.verified + 1,
       mode := if p.mode == RandomFirst then RarestFirst else p.mode)
  }

  function MarkVerified(p: Picker, piece: nat): (r: Picker)
    ensures Matched(p) ==> Matched(r)
  {
    CheckMode(CountVerified(PieceFailed(p, piece), piece))
  }

  function UnassignBlock(p: Picker, piece: nat, offset: nat): (r: Picker)
    requires Matched(p)
    ensures Matched(r)
  {
    if piece in p.inProgress then
      p.(inProgress := p.inProgress[piece := Unask(p.inProgress[piece], offset / BLOCK_SIZE)])
    else p
  }

  /** The requests of endgame mode: every block not received of the in-progress pieces the peer has. */
  ghost predicate IsEndgameRequest(p: Picker, peer: set<nat>, r: BlockRequest) {
    && r.piece in p.inProgress && r.piece in peer
    && r.offset % BLOCK_SIZE == 0
    && IsNew(p.inProgress[r.piece], r.offset / BLOCK_SIZE)
    && r.length == BlockLength(p.inProgress[r.piece].length, r.offset / BLOCK_SIZE)
  }
}
