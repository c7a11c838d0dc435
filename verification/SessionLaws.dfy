/** What every run of a session keeps: only checked pieces are had, and the disk agrees with what was checked. */
module SessionLaws {
  import opened ByteStrings
  import opened Wrappers
  import opened Address
  import opened Metainfo
  import opened InfoLengths
  import opened DiskSpans
  import opened DiskMapping
  import opened PickerSpec
  import opened PickerLaws
  import opened SessionSpec

  ghost predicate Params(tor: Torrent, p: Picker) {
    p.numPieces == tor.n && p.pieceLength == tor.pieceLength && p.total == tor.total
  }

  ghost predicate Sound(tor: Torrent, p: Picker) {
    Inv(p) && Params(tor, p)
  }

  lemma SoundIs(tor: Torrent, p: Picker)
    requires Sound(tor, p)
    ensures Inv(p) && Shape(p) && Matched(p) && Params(tor, p) && |p.availability| == tor.n
    ensures Tiled(tor.n, tor.pieceLength, tor.total)
  {
    hide PickerPieceLength, Tiled, AllReceived;
  }

  /** Same pieces had and same availability. */
  ghost predicate SameHoldings(p: Picker, q: Picker) {
    p.have == q.have && p.availability == q.availability
  }

  /** Nothing that matters to the disk or to availability differs. */
  ghost predicate SameLedger(s: Session, t: Session) {
    && SameHoldings(s.picker, t.picker)
    && s.disk == t.disk && s.writes == t.writes
    && s.verified == t.verified && s.stored == t.stored && s.spoiled == t.spoiled
  }

  // ------------------------------------------------------- refilled pipelines

  /** The same peers, choking or not as before. */
  ghost predicate PeersKept(s: Session, t: Session) {
    t.peers.Keys == s.peers.Keys && forall a :: a in s.peers ==> t.peers[a].choking == s.peers[a].choking
  }

  /** Only this peer is asked for more, and for one block at most. */
  ghost predicate OneMore(s: Session, t: Session, addr: SocketAddr, sent: bool) {
    && (addr in s.peers && addr in t.peers ==>
          t.peers[addr].outstanding == s.peers[addr].outstanding + if sent then 1 else 0)
    && (forall a :: a in s.peers && a in t.peers && a != addr ==> t.peers[a].outstanding == s.peers[a].outstanding)
  }

  lemma PickKeeps(tor: Torrent, s: Session, addr: SocketAddr, pick: Pick)
    requires Sound(tor, s.picker) && Matched(s.picker) && Shape(s.picker)
    requires addr in s.bitfields && LegalPick(s.picker, s.bitfields[addr], Some(pick.piece))
    ensures var t := TakePick(s, addr, pick);
      Sound(tor, t.picker) && SameLedger(s, t) && t.bitfields == s.bitfields && PeersKept(s, t)
    ensures OneMore(s, TakePick(s, addr, pick), addr, pick.sent)
    ensures pick.piece in s.bitfields[addr] && pick.piece !in s.picker.have && pick.piece < tor.n
  {
    hide Inv, Shape, Matched, LegalPick, AfterPick, Pickable, Requested;
    PickKeepsInv(s.picker, s.bitfields[addr], pick.piece);
    PickOfMissing(s.picker, s.bitfields[addr], pick.piece);
    PickParams(s.picker, pick.piece);
  }

  /** Filling a pipeline picks pieces we lack and the peer has, and raises its counter by no more than its room. */
  lemma {:induction false} PicksKeep(tor: Torrent, s: Session, addr: SocketAddr, left: nat, picks: seq<Pick>)
    requires Sound(tor, s.picker) && Matched(s.picker) && LegalPicks(s, addr, left, picks)
    ensures var t := TakePicks(s, addr, picks);
      Sound(tor, t.picker) && SameLedger(s, t) && t.bitfields == s.bitfields && PeersKept(s, t)
    ensures forall k :: 0 <= k < |picks| ==> picks[k].piece !in s.picker.have && picks[k].piece in s.bitfields[addr]
    ensures addr in s.peers ==>
      TakePicks(s, addr, picks).peers[addr].outstanding <= s.peers[addr].outstanding + left
    ensures forall a :: a in s.peers && a != addr ==>
      TakePicks(s, addr, picks).peers[a].outstanding == s.peers[a].outstanding
    decreases |picks|
  {
    hide Sound, Inv, Shape, Matched, LegalPick, AfterPick, Pickable, Requested, TakePick;
    if picks != [] {
      SoundIs(tor, s.picker);
      PickKeeps(tor, s, addr, picks[0]);
      var t := TakePick(s, addr, picks[0]);
      if picks[0].sent {
        PicksKeep(tor, t, addr, left - 1, picks[1..]);
      } else {
        assert picks[1..] == [];
      }
    }
  }

  /** No peer's counter of outstanding requests exceeds 256; endgame requests are not counted. */
  ghost predicate Pipelined(s: Session) {
    forall a :: a in s.peers ==> s.peers[a].outstanding <= MAX_PIPELINE
  }

  lemma FillKeeps(tor: Torrent, s: Session, f: Fill)
    requires Sound(tor, s.picker) && Matched(s.picker) && LegalFill(s, f)
    ensures var t := TakePicks(s, f.addr, f.picks);
      Sound(tor, t.picker) && SameLedger(s, t) && t.bitfields == s.bitfields && PeersKept(s, t)
    ensures Pipelined(s) ==> Pipelined(TakePicks(s, f.addr, f.picks))
    ensures forall k :: 0 <= k < |f.picks| ==> f.picks[k].piece !in s.picker.have
  {
    hide Sound, Inv, Shape, Matched, LegalPick, LegalPicks;
    if f.picks != [] {
      hide TakePicks;
      PicksKeep(tor, s, f.addr, f.depth - s.peers[f.addr].outstanding, f.picks);
    }
  }

  lemma {:induction false} FillsKeep(tor: Torrent, s: Session, fills: seq<Fill>)
    requires Sound(tor, s.picker) && Matched(s.picker) && LegalFills(s, fills)
    ensures var t := TakeFills(s, fills);
      Sound(tor, t.picker) && SameLedger(s, t) && t.bitfields == s.bitfields
    ensures Pipelined(s) ==> Pipelined(TakeFills(s, fills))
    ensures forall k, m :: 0 <= k < |fills| && 0 <= m < |fills[k].picks| ==> fills[k].picks[m].piece !in s.picker.have
    decreases |fills|
  {
    hide Sound, Inv, Shape, Matched, LegalFill, TakePicks, Pipelined;
    if fills != [] {
      FillKeeps(tor, s, fills[0]);
      FillsKeep(tor, TakePicks(s, fills[0].addr, fills[0].picks), fills[1..]);
      assert forall k :: 1 <= k < |fills| ==> fills[k] == fills[1..][k - 1];
    }
  }

  // ------------------------------------------------------------------ events

  lemma {:induction false} UnassignKeeps(tor: Torrent, p: Picker, blocks: seq<BlockRequest>)
    requires Sound(tor, p) && Matched(p)
    ensures Sound(tor, Unassign(p, blocks)) && SameHoldings(p, Unassign(p, blocks))
    decreases |blocks|
  {
    hide Inv, Matched;
    if blocks != [] {
      UnassignKeepsInv(p, blocks[0].piece, blocks[0].offset);
      UnassignKeeps(tor, UnassignBlock(p, blocks[0].piece, blocks[0].offset), blocks[1..]);
    }
  }

  lemma ReleaseKeeps(tor: Torrent, s: Session, addr: SocketAddr)
    requires Sound(tor, s.picker) && Matched(s.picker)
    ensures var t := Release(s, addr);
      Sound(tor, t.picker) && SameLedger(s, t) && t.peers == s.peers && t.bitfields == s.bitfields
  {
    hide Sound, Matched;
    if addr in s.pending {
      UnassignKeeps(tor, s.picker, s.pending[addr]);
    }
  }

  /** The bytes of a piece that this block completes, if they match its hash. */
  function Checked(tor: Torrent, s: Session, e: Event): Option<Bytes>
    requires Matched(s.picker)
  {
    if e.BlockArrived? then
      var r := BlockReceived(s.picker, e.piece, e.offset, e.data).1;
      if r.PieceComplete? && Verifies(tor, e.piece, r.data) then Some(r.data) else None
    else None
  }

  /** The picker's holdings after an event on its picker alone, availability aside. */
  ghost predicate Accepted(tor: Torrent, s: Session, t: Session, piece: nat, bytes: Bytes) {
    && piece < tor.n && piece !in s.picker.have
    && |bytes| == LengthIn(tor, piece) && Verifies(tor, piece, bytes)
    && t.picker.have == s.picker.have + {piece}
    && t.verified == s.verified[piece := bytes]
    && t.writes == s.writes + [Write(piece, bytes)]
    && t.disk == s.disk && t.stored == s.stored && t.spoiled == s.spoiled
  }

  function LengthIn(tor: Torrent, piece: nat): nat {
    if PieceStart(tor.pieceLength, piece) <= tor.total
    then PieceEnd(tor.pieceLength, tor.total, piece) - PieceStart(tor.pieceLength, piece) else 0
  }

  lemma AcceptKeeps(tor: Torrent, s: Session, piece: nat, offset: nat, data: Bytes)
    requires Sound(tor, s.picker) && Matched(s.picker)
    ensures var t := AcceptBlock(tor, s, piece, offset, data);
      var checked := Checked(tor, s, BlockArrived(SocketAddr([], 0), piece, offset, data));
      && Sound(tor, t.picker) && t.picker.availability == s.picker.availability
      && t.peers == s.peers && t.bitfields == s.bitfields
      && (checked.None? ==> SameLedger(s, t))
      && (checked.Some? ==> Accepted(tor, s, t, piece, checked.value))
  {
    hide Sound, Matched, BlockReceived, MarkVerified, PieceFailed, LengthIn;
    BlockSound(tor, s.picker, piece, offset, data);
    var (p, r) := BlockReceived(s.picker, piece, offset, data);
    if r.PieceComplete? {
      SettledSound(tor, p, piece);
    }
  }

  /** A block keeps the picker sound; a piece it completes is one we lack, at its full length. */
  lemma BlockSound(tor: Torrent, p: Picker, piece: nat, offset: nat, data: Bytes)
    requires Sound(tor, p) && Matched(p)
    ensures var (q, r) := BlockReceived(p, piece, offset, data);
      && Sound(tor, q) && SameHoldings(p, q)
      && (r.PieceComplete? ==> piece < tor.n && piece !in p.have && |r.data| == LengthIn(tor, piece))
  {
    hide Inv, Shape, Matched, BlockReceived, PieceEnd, PieceStart, PickerPieceLength;
    BlockKeepsInv(p, piece, offset, data);
    BlockParams(p, piece, offset, data);
    if BlockReceived(p, piece, offset, data).1.PieceComplete? {
      SoundIs(tor, p);
      PieceBounds(tor.n, tor.pieceLength, tor.total, piece);
    }
  }

  lemma SettledSound(tor: Torrent, p: Picker, piece: nat)
    requires Sound(tor, p) && piece < tor.n && piece !in p.have
    ensures Sound(tor, MarkVerified(p, piece)) && MarkVerified(p, piece).have == p.have + {piece}
    ensures MarkVerified(p, piece).availability == p.availability
    ensures Sound(tor, PieceFailed(p, piece)) && SameHoldings(p, PieceFailed(p, piece))
  {
    hide Inv, MarkVerified, Matched;
    VerifiedKeepsInv(p, piece);
    VerifiedParams(p, piece);
    FailedKeepsInv(p, piece);
  }

  lemma BlockParams(p: Picker, piece: nat, offset: nat, data: Bytes)
    requires Matched(p)
    ensures var q := BlockReceived(p, piece, offset, data).0;
      q.numPieces == p.numPieces && q.pieceLength == p.pieceLength && q.total == p.total
  {
    hide ReceiveBlock, AllReceived;
  }

  lemma VerifiedParams(p: Picker, piece: nat)
    ensures var q := MarkVerified(p, piece);
      && q.numPieces == p.numPieces && q.pieceLength == p.pieceLength && q.total == p.total
      && q.availability == p.availability
  {
  }

  /** What an event may do to the pieces had, the books and the disk. */
  ghost predicate Effect(tor: Torrent, s: Session, e: Event, t: Session)
    requires Matched(s.picker)
  {
    match Checked(tor, s, e)
    case Some(bytes) => Accepted(tor, s, t, e.piece, bytes)
    case None =>
      && t.picker.have == s.picker.have && t.verified == s.verified
      && (!e.Written? ==> t.disk == s.disk && t.writes == s.writes && t.stored == s.stored && t.spoiled == s.spoiled)
  }

  lemma EventKeeps(tor: Torrent, s: Session, e: Event)
    requires Sound(tor, s.picker) && Matched(s.picker) && Possible(tor, s, e)
    ensures var t := Base(tor, s, e);
      Sound(tor, t.picker) && Effect(tor, s, e, t) && (Pipelined(s) ==> Pipelined(t))
  {
    hide Inv, Shape, Matched, AcceptBlock, Release, BlockReceived, Unassign, LegalPick, BeforeBlock,
      PickerSpec.PeerHasBitfield, PickerSpec.PeerHasPiece, PickerSpec.PeerDisconnected, DiskAfter, Accepted,
      Verifies, Missing, SameLedger, Params;
    match e
    case BitfieldReceived(_, bytes) => CountsKeep(tor, s.picker, Announced(tor, bytes), 0);
    case HaveAll(_) => CountsKeep(tor, s.picker, Range(tor.n), 0);
    case Have(_, piece) => CountsKeep(tor, s.picker, {}, piece);
    case Choked(addr) => ChokeKeeps(tor, s, addr);
    case BlockArrived(addr, piece, offset, data) =>
      hide Pipelined, Sound, Effect;
      AnsweredKeeps(s, addr, piece, offset);
      AcceptKeeps(tor, BeforeBlock(s, addr, piece, offset), piece, offset, data);
      AcceptEffect(tor, s, addr, piece, offset, data);
      assert Base(tor, s, e) == AcceptBlock(tor, BeforeBlock(s, addr, piece, offset), piece, offset, data);
    case Disconnected(addr) => DisconnectKeeps(tor, s, addr);
    case _ =>
  }

  lemma ChokeKeeps(tor: Torrent, s: Session, addr: SocketAddr)
    requires Sound(tor, s.picker) && Matched(s.picker)
    ensures var t := Base(tor, s, Choked(addr));
      Sound(tor, t.picker) && Effect(tor, s, Choked(addr), t) && (Pipelined(s) ==> Pipelined(t))
  {
    hide Sound, Matched, Release, Accepted;
    ReleaseKeeps(tor, s, addr);
  }

  lemma DisconnectKeeps(tor: Torrent, s: Session, addr: SocketAddr)
    requires Sound(tor, s.picker) && Matched(s.picker)
    ensures var t := Base(tor, s, Disconnected(addr));
      Sound(tor, t.picker) && Effect(tor, s, Disconnected(addr), t) && (Pipelined(s) ==> Pipelined(t))
  {
    hide Sound, Matched, Release, Accepted, PickerSpec.PeerDisconnected;
    ReleaseKeeps(tor, s, addr);
    if addr in s.bitfields {
      CountsKeep(tor, Release(s, addr).picker, s.bitfields[addr], 0);
    }
  }

  lemma CountsKeep(tor: Torrent, p: Picker, peer: set<nat>, piece: nat)
    requires Sound(tor, p)
    ensures Sound(tor, PickerSpec.PeerHasBitfield(p, peer)) && PickerSpec.PeerHasBitfield(p, peer).have == p.have
    ensures Sound(tor, PickerSpec.PeerHasPiece(p, piece)) && PickerSpec.PeerHasPiece(p, piece).have == p.have
    ensures Sound(tor, PickerSpec.PeerDisconnected(p, peer)) && PickerSpec.PeerDisconnected(p, peer).have == p.have
  {
    hide Inv;
    AvailabilityKeepsInv(p, peer, piece);
  }

  lemma AnsweredKeeps(s: Session, addr: SocketAddr, piece: nat, offset: nat)
    ensures Pipelined(s) ==> Pipelined(BeforeBlock(s, addr, piece, offset))
  {
  }

  lemma AcceptEffect(tor: Torrent, s: Session, addr: SocketAddr, piece: nat, offset: nat, data: Bytes)
    requires Sound(tor, s.picker) && Matched(s.picker)
    ensures var t := AcceptBlock(tor, BeforeBlock(s, addr, piece, offset), piece, offset, data);
      && Effect(tor, s, BlockArrived(addr, piece, offset, data), t)
      && (Pipelined(BeforeBlock(s, addr, piece, offset)) ==> Pipelined(t))
  {
    hide Sound, Inv, Shape, Matched, AcceptBlock, BlockReceived, MarkVerified, Verifies;
    AcceptKeeps(tor, BeforeBlock(s, addr, piece, offset), piece, offset, data);
  }

  // ------------------------------------------------------- books and the disk

  function Queued(writes: seq<Write>): set<nat> {
    set w | w in writes :: w.piece
  }

  /** Piece i as the disk holds it. */
  function OnDisk(tor: Torrent, disk: Bytes, i: nat): Bytes {
    if PieceStart(tor.pieceLength, i) <= tor.total <= |disk| then PieceOf(disk, tor.pieceLength, tor.total, i) else []
  }

  /** The issued writes carry checked pieces, each once and not yet settled. */
  ghost predicate WritesAccounted(s: Session) {
    && (forall k :: 0 <= k < |s.writes| ==>
          && s.writes[k].piece in s.verified && s.writes[k].data == s.verified[s.writes[k].piece]
          && s.writes[k].piece !in s.stored && s.writes[k].piece !in s.spoiled)
    && (forall j, k :: 0 <= j < k < |s.writes| ==> s.writes[j].piece != s.writes[k].piece)
  }

  /** What the session has: pieces adopted at the start, and pieces checked in this run, each written once. */
  ghost predicate Books(tor: Torrent, adopted: set<nat>, s: Session) {
    && s.picker.have == adopted + s.verified.Keys && adopted !! s.verified.Keys
    && (forall i :: i in s.verified ==>
          i < tor.n && |s.verified[i]| == LengthIn(tor, i) && Verifies(tor, i, s.verified[i]))
    && WritesAccounted(s)
    && s.stored !! s.spoiled
    && s.stored + s.spoiled + Queued(s.writes) == s.verified.Keys
  }

  /** The disk holds every stored piece as it was checked, and every piece without a settled write as at the start. */
  ghost predicate DiskAgrees(tor: Torrent, disk0: Bytes, s: Session) {
    && tor.total <= |s.disk| == |disk0|
    && (forall i: nat :: i < tor.n && i in s.stored ==> i in s.verified && OnDisk(tor, s.disk, i) == s.verified[i])
    && (forall i: nat :: i < tor.n && i !in s.stored && i !in s.spoiled ==>
          OnDisk(tor, s.disk, i) == OnDisk(tor, disk0, i))
  }

  lemma AcceptedBooks(tor: Torrent, adopted: set<nat>, disk0: Bytes, s: Session, t: Session, piece: nat, bytes: Bytes)
    requires Books(tor, adopted, s) && DiskAgrees(tor, disk0, s) && Accepted(tor, s, t, piece, bytes)
    ensures Books(tor, adopted, t) && DiskAgrees(tor, disk0, t)
  {
    hide LengthIn, OnDisk, Verifies;
    assert Queued(t.writes) == Queued(s.writes) + {piece} by {
      assert t.writes[|s.writes|] == Write(piece, bytes);
      assert forall w :: w in t.writes <==> w in s.writes || w == Write(piece, bytes);
    }
    assert t.verified.Keys == s.verified.Keys + {piece};
  }

  lemma QueuedWithout(writes: seq<Write>, index: nat)
    requires index < |writes|
    requires forall j, k :: 0 <= j < k < |writes| ==> writes[j].piece != writes[k].piece
    ensures Queued(writes[..index] + writes[index + 1..]) == Queued(writes) - {writes[index].piece}
  {
    var rest := writes[..index] + writes[index + 1..];
    forall i
      ensures i in Queued(rest) <==> i in Queued(writes) && i != writes[index].piece
    {
      if i in Queued(rest) {
        var k :| 0 <= k < |rest| && rest[k].piece == i;
        assert rest[k] == writes[if k < index then k else k + 1];
      }
      if i in Queued(writes) && i != writes[index].piece {
        var k :| 0 <= k < |writes| && writes[k].piece == i;
        assert rest[if k < index then k else k - 1] == writes[k];
      }
    }
  }

  /** A settled write changes its own piece on disk and no other. */
  lemma WrittenDisk(tor: Torrent, disk: Bytes, w: Write, outcome: WriteOutcome, i: nat)
    requires Tiled(tor.n, tor.pieceLength, tor.total) && tor.total <= |disk|
    requires w.piece < tor.n && |w.data| == LengthIn(tor, w.piece) && i < tor.n
    requires outcome.Failed? ==> |outcome.left| == |w.data|
    ensures var after := DiskAfter(tor, disk, w, outcome);
      && |after| == |disk|
      && (i != w.piece ==> OnDisk(tor, after, i) == OnDisk(tor, disk, i))
      && (i == w.piece ==> OnDisk(tor, after, i) == if outcome.Succeeded? then w.data else outcome.left)
  {
    var data := if outcome.Succeeded? then w.data else outcome.left;
    PieceBounds(tor.n, tor.pieceLength, tor.total, w.piece);
    PieceBounds(tor.n, tor.pieceLength, tor.total, i);
    hide Tiled, PieceStart, PieceEnd, WritePieceFlat, PieceOf, PickerPieceLength;
    ReadAfterWrite(disk, tor.n, tor.pieceLength, tor.total, w.piece, data, i);
  }

  lemma WrittenBooks(tor: Torrent, adopted: set<nat>, disk0: Bytes, s: Session, e: Event)
    requires Matched(s.picker) && e.Written? && Possible(tor, s, e)
    requires Tiled(tor.n, tor.pieceLength, tor.total)
    requires Books(tor, adopted, s) && DiskAgrees(tor, disk0, s)
    ensures Books(tor, adopted, Base(tor, s, e)) && DiskAgrees(tor, disk0, Base(tor, s, e))
  {
    hide LengthIn, OnDisk, Verifies, DiskAfter, Tiled, Matched, Queued;
    var t := Base(tor, s, e);
    var w := s.writes[e.index];
    QueuedWithout(s.writes, e.index);
    assert w.piece in Queued(s.writes) by {
      QueuedHas(s.writes, e.index);
    }
    forall k | 0 <= k < |t.writes|
      ensures t.writes[k] == s.writes[if k < e.index then k else k + 1]
    {
    }
    forall i: nat | i < tor.n
      ensures i != w.piece ==> OnDisk(tor, t.disk, i) == OnDisk(tor, s.disk, i)
      ensures i == w.piece && e.outcome.Succeeded? ==> OnDisk(tor, t.disk, i) == w.data
    {
      WrittenDisk(tor, s.disk, w, e.outcome, i);
    }
    WrittenDisk(tor, s.disk, w, e.outcome, w.piece);
  }

  lemma QueuedHas(writes: seq<Write>, k: nat)
    requires k < |writes|
    ensures writes[k].piece in Queued(writes)
  {
  }

  /** The books and the disk depend on the ledger alone. */
  lemma SameBooks(tor: Torrent, adopted: set<nat>, disk0: Bytes, s: Session, t: Session)
    requires SameLedger(s, t) && Books(tor, adopted, s) && DiskAgrees(tor, disk0, s)
    ensures Books(tor, adopted, t) && DiskAgrees(tor, disk0, t)
  {
  }

  // ------------------------------------------------------------------- steps

  ghost predicate Safe(tor: Torrent, adopted: set<nat>, disk0: Bytes, s: Session) {
    Sound(tor, s.picker) && Books(tor, adopted, s) && DiskAgrees(tor, disk0, s) && Pipelined(s)
  }

  lemma BaseKeepsSafe(tor: Torrent, adopted: set<nat>, disk0: Bytes, s: Session, e: Event)
    requires Matched(s.picker) && Safe(tor, adopted, disk0, s) && Possible(tor, s, e)
    ensures Safe(tor, adopted, disk0, Base(tor, s, e))
  {
    hide Sound, Inv, Matched, Books, DiskAgrees, Pipelined, Accepted, Base, Tiled, Possible;
    EventKeeps(tor, s, e);
    SoundIs(tor, s.picker);
    if Checked(tor, s, e).Some? {
      AcceptedBooks(tor, adopted, disk0, s, Base(tor, s, e), e.piece, Checked(tor, s, e).value);
    } else if e.Written? {
      WrittenBooks(tor, adopted, disk0, s, e);
    } else {
      SameExceptCounts(tor, adopted, disk0, s, Base(tor, s, e));
    }
  }

  lemma SameExceptCounts(tor: Torrent, adopted: set<nat>, disk0: Bytes, s: Session, t: Session)
    requires t.picker.have == s.picker.have && t.disk == s.disk && t.writes == s.writes
    requires t.verified == s.verified && t.stored == s.stored && t.spoiled == s.spoiled
    requires Books(tor, adopted, s) && DiskAgrees(tor, disk0, s)
    ensures Books(tor, adopted, t) && DiskAgrees(tor, disk0, t)
  {
  }

  lemma StepKeepsSafe(tor: Torrent, adopted: set<nat>, disk0: Bytes, s: Session, e: Event, fills: seq<Fill>)
    requires Matched(s.picker) && Safe(tor, adopted, disk0, s) && Legal(tor, s, e, fills)
    ensures Safe(tor, adopted, disk0, Step(tor, s, e, fills))
  {
    hide Sound, Inv, Matched, Books, DiskAgrees, Pipelined, Base, Possible, SameLedger;
    BaseKeepsSafe(tor, adopted, disk0, s, e);
    FillsKeep(tor, Base(tor, s, e), fills);
    SameBooks(tor, adopted, disk0, Base(tor, s, e), Step(tor, s, e, fills));
  }

  /**
   * One step: the pieces had change exactly when a block completes a piece whose bytes match their hash,
   * and then that piece, not had before, is added and its write issued; nothing is ever removed, and no
   * pipeline picks a piece had by then.
   */
  lemma HaveGrowsByChecked(tor: Torrent, s: Session, e: Event, fills: seq<Fill>)
    requires Matched(s.picker) && Sound(tor, s.picker) && Legal(tor, s, e, fills)
    ensures var t := Step(tor, s, e, fills);
      var checked := Checked(tor, s, e);
      && (checked.Some? ==> e.piece !in s.picker.have && t.picker.have == s.picker.have + {e.piece}
                            && t.writes == s.writes + [Write(e.piece, checked.value)]
                            && Verifies(tor, e.piece, checked.value))
      && (checked.None? ==> t.picker.have == s.picker.have && t.verified == s.verified
                            && (!e.Written? ==> t.writes == s.writes && t.disk == s.disk))
    ensures forall k, m :: 0 <= k < |fills| && 0 <= m < |fills[k].picks| ==>
      fills[k].picks[m].piece !in Step(tor, s, e, fills).picker.have
  {
    hide Sound, Inv, Matched, Pipelined, Base, Possible, Checked;
    EventKeeps(tor, s, e);
    FillsKeep(tor, Base(tor, s, e), fills);
  }

  // -------------------------------------------------------------------- runs

  /** The start of a session: what is adopted checks out on the disk. */
  ghost predicate Starts(tor: Torrent, p: Picker, disk: Bytes) {
    && Sound(tor, p) && tor.total <= |disk|
    && forall i :: i in p.have ==> Verifies(tor, i, OnDisk(tor, disk, i))
  }

  lemma StartIsSafe(tor: Torrent, p: Picker, disk: Bytes)
    requires Starts(tor, p, disk)
    ensures Safe(tor, p.have, disk, Opened(p, disk)) && Matched(p)
  {
    SoundIs(tor, p);
    hide Sound, Inv, Matched, Verifies, OnDisk;
  }

  lemma {:induction false} RunKeepsSafe(tor: Torrent, p: Picker, disk: Bytes, acts: seq<Act>)
    requires Starts(tor, p, disk) && Matched(p) && LegalRun(tor, Opened(p, disk), acts)
    ensures Safe(tor, p.have, disk, Run(tor, Opened(p, disk), acts))
    decreases |acts|
  {
    hide Matched, Safe, Legal, Step, Starts;
    if acts == [] {
      StartIsSafe(tor, p, disk);
    } else {
      var front := acts[..|acts| - 1];
      RunKeepsSafe(tor, p, disk, front);
      var act := acts[|acts| - 1];
      StepKeepsSafe(tor, p.have, disk, Run(tor, Opened(p, disk), front), act.event, act.fills);
    }
  }

  /** In every reachable state, each piece had checks out on disk unless its write is still to come or has failed. */
  lemma HadIsOnDisk(tor: Torrent, p: Picker, disk: Bytes, acts: seq<Act>, i: nat)
    requires Starts(tor, p, disk) && Matched(p) && LegalRun(tor, Opened(p, disk), acts)
    requires var s := Run(tor, Opened(p, disk), acts);
      i in s.picker.have && i !in Queued(s.writes) && i !in s.spoiled
    ensures i < tor.n && Verifies(tor, i, OnDisk(tor, Run(tor, Opened(p, disk), acts).disk, i))
  {
    hide Matched, Verifies, OnDisk, LengthIn, LegalRun, Run;
    RunKeepsSafe(tor, p, disk, acts);
    var s := Run(tor, Opened(p, disk), acts);
    SoundHave(tor, s.picker);
  }

  lemma SoundHave(tor: Torrent, p: Picker)
    requires Sound(tor, p)
    ensures forall i :: i in p.have ==> i < tor.n
  {
  }

  /** At completion, once the issued writes are done and none failed, every piece on disk matches its hash. */
  lemma CompleteIsOnDisk(tor: Torrent, p: Picker, disk: Bytes, acts: seq<Act>)
    requires Starts(tor, p, disk) && Matched(p) && LegalRun(tor, Opened(p, disk), acts)
    requires var s := Run(tor, Opened(p, disk), acts);
      Missing(s.picker) == {} && s.writes == [] && s.spoiled == {}
    ensures forall i: nat :: i < tor.n ==> Verifies(tor, i, OnDisk(tor, Run(tor, Opened(p, disk), acts).disk, i))
  {
    hide Matched, Verifies, OnDisk, LegalRun, Run;
    var s := Run(tor, Opened(p, disk), acts);
    RunKeepsSafe(tor, p, disk, acts);
    forall i: nat | i < tor.n
      ensures Verifies(tor, i, OnDisk(tor, s.disk, i))
    {
      assert i in Range(s.picker.numPieces) && i !in Missing(s.picker);
      HadIsOnDisk(tor, p, disk, acts, i);
    }
  }

  /** What is had stays had, and what was checked stays as it was checked, to the end of the run. */
  lemma {:induction false} HadIsForever(tor: Torrent, p: Picker, disk: Bytes, acts: seq<Act>, k: nat)
    requires Starts(tor, p, disk) && Matched(p) && LegalRun(tor, Opened(p, disk), acts) && k <= |acts|
    ensures LegalRun(tor, Opened(p, disk), acts[..k])
    ensures var early, late := Run(tor, Opened(p, disk), acts[..k]), Run(tor, Opened(p, disk), acts);
      && early.picker.have <= late.picker.have
      && early.stored <= late.stored && early.spoiled <= late.spoiled
      && forall i :: i in early.verified ==> i in late.verified && late.verified[i] == early.verified[i]
    decreases |acts|
  {
    if k == |acts| {
      assert acts[..k] == acts;
    } else {
      var front := acts[..|acts| - 1];
      assert acts[..k] == front[..k];
      HadIsForever(tor, p, disk, front, k);
      hide Matched, Legal, Step, Starts, LegalRun;
      LegalLast(tor, Opened(p, disk), acts);
      RunKeepsSafe(tor, p, disk, front);
      var act := acts[|acts| - 1];
      StepGrows(tor, p.have, disk, Run(tor, Opened(p, disk), front), act.event, act.fills);
    }
  }

  /** A piece that is on disk is never written again: its bytes are the same to the end of the run. */
  lemma SettledIsForever(tor: Torrent, p: Picker, disk: Bytes, acts: seq<Act>, k: nat, i: nat)
    requires Starts(tor, p, disk) && Matched(p) && LegalRun(tor, Opened(p, disk), acts) && k <= |acts|
    requires var s := Run(tor, Opened(p, disk), acts[..k]);
      i in s.picker.have && i !in Queued(s.writes) && i !in s.spoiled
    ensures OnDisk(tor, Run(tor, Opened(p, disk), acts).disk, i)
         == OnDisk(tor, Run(tor, Opened(p, disk), acts[..k]).disk, i)
  {
    hide Matched, Verifies, OnDisk, LengthIn, LegalRun, Run, Starts, Pipelined;
    HadIsForever(tor, p, disk, acts, k);
    RunKeepsSafe(tor, p, disk, acts);
    RunKeepsSafe(tor, p, disk, acts[..k]);
    var early, late := Run(tor, Opened(p, disk), acts[..k]), Run(tor, Opened(p, disk), acts);
    SoundHave(tor, early.picker);
    hide Sound;
    if i in p.have {
      assert i !in late.verified;
    } else {
      assert i in early.stored;
    }
  }

  lemma LegalLast(tor: Torrent, s: Session, acts: seq<Act>)
    requires Matched(s.picker) && LegalRun(tor, s, acts) && acts != []
    ensures var front := acts[..|acts| - 1];
      LegalRun(tor, s, front) && Legal(tor, Run(tor, s, front), acts[|acts| - 1].event, acts[|acts| - 1].fills)
  {
  }

  lemma StepGrows(tor: Torrent, adopted: set<nat>, disk0: Bytes, s: Session, e: Event, fills: seq<Fill>)
    requires Matched(s.picker) && Safe(tor, adopted, disk0, s) && Legal(tor, s, e, fills)
    ensures var t := Step(tor, s, e, fills);
      && s.picker.have <= t.picker.have && s.stored <= t.stored && s.spoiled <= t.spoiled
      && forall i :: i in s.verified ==> i in t.verified && t.verified[i] == s.verified[i]
  {
    hide Sound, Inv, Matched, Pipelined, Checked, LegalFills, DiskAgrees, DiskAfter, LengthIn, Verifies;
    EventKeeps(tor, s, e);
    FillsKeep(tor, Base(tor, s, e), fills);
  }
}
