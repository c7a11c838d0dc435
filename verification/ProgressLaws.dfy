/** The download never gets stuck: while a piece is missing, a peer that has everything can be asked for something. */
module ProgressLaws {
  import opened ByteStrings
  import opened Wrappers
  import opened Address
  import opened InfoLengths
  import opened PickerSpec
  import opened PickerLaws
  import opened SessionSpec
  import opened SessionLaws
  import opened Resume

  /** Outside endgame some missing piece is not in progress yet. */
  ghost predicate Roomy(p: Picker) {
    p.mode != Endgame ==> |p.inProgress| < p.numPieces - |p.have| || |p.have| >= p.numPieces
  }

  // ------------------------------------------------------------ picker steps

  lemma CheckedRoomy(p: Picker)
    requires |p.inProgress| <= p.numPieces - |p.have|
    ensures Roomy(CheckMode(p))
  {
  }

  lemma FewerRoomy(p: Picker, q: Picker)
    requires Roomy(p) && |q.inProgress| <= |p.inProgress|
    requires q.mode == p.mode && q.have == p.have && q.numPieces == p.numPieces
    ensures Roomy(q)
  {
  }

  lemma PickRoomy(p: Picker, peer: set<nat>, i: nat)
    requires Inv(p) && Roomy(p) && LegalPick(p, peer, Some(i)) && p.pieceLength > 0 && Pickable(p, i)
    ensures Roomy(AfterPick(p, i))
  {
    hide Shape, LegalPick, LeastFree, Ask, ProgOf, CheckMode, AllReceived;
    PickKeepsInv(p, peer, i);
    InProgressIsMissing(AfterPick(p, i));
    var b := LeastFree(ProgOf(p, i), 0).value;
    var q := p.(inProgress := p.inProgress[i := Ask(ProgOf(p, i), b)]);
    assert q.inProgress.Keys == p.inProgress.Keys + {i};
    assert |q.inProgress| == |q.inProgress.Keys| && |p.inProgress| == |p.inProgress.Keys|;
    if i in p.inProgress {
      assert q.inProgress.Keys == p.inProgress.Keys;
      FewerRoomy(p, q);
    } else {
      CheckModeKeeps(q);
      CheckedRoomy(q);
    }
  }

  lemma CheckModeKeeps(p: Picker)
    ensures CheckMode(p).inProgress == p.inProgress && CheckMode(p).have == p.have
    ensures CheckMode(p).numPieces == p.numPieces
  {
  }

  lemma RemoveSize(pieces: map<nat, Prog>, i: nat)
    ensures |pieces - {i}| <= |pieces|
  {
    assert (pieces - {i}).Keys == pieces.Keys - {i};
    assert |pieces - {i}| == |(pieces - {i}).Keys| && |pieces| == |pieces.Keys|;
    SubsetSize((pieces - {i}).Keys, pieces.Keys);
  }

  lemma UpdateSize(pieces: map<nat, Prog>, i: nat, prog: Prog)
    requires i in pieces
    ensures |pieces[i := prog]| == |pieces|
  {
    assert pieces[i := prog].Keys == pieces.Keys;
    assert |pieces[i := prog]| == |pieces[i := prog].Keys| && |pieces| == |pieces.Keys|;
  }

  lemma BlockRoomy(p: Picker, piece: nat, offset: nat, data: Bytes)
    requires Matched(p) && Roomy(p)
    ensures Roomy(BlockReceived(p, piece, offset, data).0)
  {
    hide AllReceived, ReceiveBlock, IsNew;
    if piece in p.inProgress && IsNew(p.inProgress[piece], offset / BLOCK_SIZE) {
      RemoveSize(p.inProgress, piece);
      UpdateSize(p.inProgress, piece, ReceiveBlock(p.inProgress[piece], offset, data));
    }
  }

  lemma SettleRoomy(p: Picker, piece: nat)
    requires Inv(p) && Roomy(p) && piece < p.numPieces && piece !in p.have
    ensures Roomy(MarkVerified(p, piece)) && Roomy(PieceFailed(p, piece))
  {
    hide Shape, AllReceived;
    VerifiedKeepsInv(p, piece);
    InProgressIsMissing(MarkVerified(p, piece));
    RemoveSize(p.inProgress, piece);
    CheckModeKeeps(CountVerified(PieceFailed(p, piece), piece));
    CheckedRoomy(CountVerified(PieceFailed(p, piece), piece));
  }

  lemma {:induction false} UnassignRoomy(p: Picker, blocks: seq<BlockRequest>)
    requires Matched(p) && Roomy(p)
    ensures Roomy(Unassign(p, blocks))
    decreases |blocks|
  {
    hide Matched, Unask;
    if blocks != [] {
      var q := UnassignBlock(p, blocks[0].piece, blocks[0].offset);
      if blocks[0].piece in p.inProgress {
        UnaskIs(p, blocks[0].piece, blocks[0].offset);
      }
      UnassignRoomy(q, blocks[1..]);
    }
  }

  lemma UnaskIs(p: Picker, piece: nat, offset: nat)
    requires Matched(p) && piece in p.inProgress
    ensures var q := UnassignBlock(p, piece, offset);
      |q.inProgress| == |p.inProgress| && q.mode == p.mode && q.have == p.have && q.numPieces == p.numPieces
  {
    UpdateSize(p.inProgress, piece, Unask(p.inProgress[piece], offset / BLOCK_SIZE));
  }

  // ----------------------------------------------------------- session steps

  lemma {:induction false} PicksRoomy(tor: Torrent, s: Session, addr: SocketAddr, left: nat, picks: seq<Pick>)
    requires Sound(tor, s.picker) && Matched(s.picker) && LegalPicks(s, addr, left, picks) && Roomy(s.picker)
    ensures Roomy(TakePicks(s, addr, picks).picker)
    decreases |picks|
  {
    hide Inv, Shape, Matched, LegalPick, AfterPick, Pickable, Requested, Roomy;
    if picks != [] {
      PickOfMissing(s.picker, s.bitfields[addr], picks[0].piece);
      PickKeeps(tor, s, addr, picks[0]);
      LegalIsPickable(s.picker, s.bitfields[addr], picks[0].piece);
      PickRoomy(s.picker, s.bitfields[addr], picks[0].piece);
      if picks[0].sent {
        PicksRoomy(tor, TakePick(s, addr, picks[0]), addr, left - 1, picks[1..]);
      } else {
        assert picks[1..] == [];
      }
    }
  }

  lemma {:induction false} FillsRoomy(tor: Torrent, s: Session, fills: seq<Fill>)
    requires Sound(tor, s.picker) && Matched(s.picker) && LegalFills(s, fills) && Roomy(s.picker)
    ensures Roomy(TakeFills(s, fills).picker)
    decreases |fills|
  {
    hide Sound, Inv, Shape, Matched, Roomy, LegalPicks;
    if fills != [] {
      FillKeeps(tor, s, fills[0]);
      if fills[0].picks != [] {
        PicksRoomy(tor, s, fills[0].addr, fills[0].depth - s.peers[fills[0].addr].outstanding, fills[0].picks);
      }
      FillsRoomy(tor, TakePicks(s, fills[0].addr, fills[0].picks), fills[1..]);
    }
  }

  lemma AcceptRoomy(tor: Torrent, s: Session, piece: nat, offset: nat, data: Bytes)
    requires Sound(tor, s.picker) && Matched(s.picker) && Roomy(s.picker)
    ensures Roomy(AcceptBlock(tor, s, piece, offset, data).picker)
  {
    hide Inv, Matched, BlockReceived, MarkVerified, PieceFailed, LengthIn, Roomy;
    BlockSound(tor, s.picker, piece, offset, data);
    BlockRoomy(s.picker, piece, offset, data);
    var (p, r) := BlockReceived(s.picker, piece, offset, data);
    if r.PieceComplete? {
      SettleRoomy(p, piece);
    }
  }

  lemma BaseRoomy(tor: Torrent, s: Session, e: Event)
    requires Sound(tor, s.picker) && Matched(s.picker) && Roomy(s.picker)
    ensures Roomy(Base(tor, s, e).picker)
  {
    hide Sound, Inv, Matched, AcceptBlock, BeforeBlock, DiskAfter, Unassign;
    if e.BlockArrived? {
      AcceptRoomy(tor, BeforeBlock(s, e.addr, e.piece, e.offset), e.piece, e.offset, e.data);
    } else if (e.Choked? || e.Disconnected?) && e.addr in s.pending {
      UnassignRoomy(s.picker, s.pending[e.addr]);
    }
  }

  lemma {:induction false} RunRoomy(tor: Torrent, p: Picker, disk: Bytes, acts: seq<Act>)
    requires Starts(tor, p, disk) && Matched(p) && LegalRun(tor, Opened(p, disk), acts) && Roomy(p)
    ensures Roomy(Run(tor, Opened(p, disk), acts).picker)
    decreases |acts|
  {
    hide Matched, Starts, Sound, Roomy, Books, DiskAgrees, Pipelined, Base, Possible, RefillsFor, LegalFills,
      TakeFills;
    if acts != [] {
      var front, act := acts[..|acts| - 1], acts[|acts| - 1];
      LegalLast(tor, Opened(p, disk), acts);
      RunKeepsSafe(tor, p, disk, front);
      RunRoomy(tor, p, disk, front);
      var s := Run(tor, Opened(p, disk), front);
      BaseRoomy(tor, s, act.event);
      EventKeeps(tor, s, act.event);
      FillsRoomy(tor, Base(tor, s, act.event), act.fills);
    }
  }

  /** In a state with room, a peer with every piece can be asked for a free block or, in endgame, for a missing one. */
  lemma SomethingToAsk(p: Picker, peer: set<nat>)
    requires Inv(p) && Roomy(p) && Missing(p) != {} && forall i :: 0 <= i < p.numPieces ==> i in peer
    ensures !LegalPick(p, peer, None) || (p.mode == Endgame && exists r :: IsEndgameRequest(p, peer, r))
  {
    hide Shape, IsEndgameRequest, LegalPick, CanStart, AllReceived, Range;
    MissingCount(p);
    InProgressIsMissing(p);
    if p.inProgress.Keys == Missing(p) {
      var i :| i in Missing(p);
      assert i in p.inProgress && i < p.numPieces;
      UnreceivedBlock(p, peer, i);
    } else {
      var i :| i in Missing(p) && i !in p.inProgress;
      StartablePiece(p, peer, i);
    }
  }

  /** A piece in progress has a block that an endgame request asks for. */
  lemma UnreceivedBlock(p: Picker, peer: set<nat>, i: nat)
    requires i in p.inProgress && i in peer && !AllReceived(p.inProgress[i])
    ensures exists r :: IsEndgameRequest(p, peer, r)
  {
    hide BlockLength;
    var b :| 0 <= b < |p.inProgress[i].received| && !p.inProgress[i].received[b];
    BlockIndex(b);
    assert IsEndgameRequest(p, peer, BlockRequest(i, b * BLOCK_SIZE, BlockLength(p.inProgress[i].length, b)));
  }

  lemma StartablePiece(p: Picker, peer: set<nat>, i: nat)
    requires Shape(p) && i in Missing(p) && i in peer && i !in p.inProgress
    ensures !LegalPick(p, peer, None)
  {
    hide HasFree, CanContinue, ProgInv, PickerPieceLength, Tiled;
    assert CanStart(p, peer, i);
  }

  /**
   * Whatever happened (failed sends, chokes, bad pieces, lost peers), while a piece is missing a peer with
   * every piece can still be asked for something: no run of a session that adopted its pieces from disk gets stuck.
   */
  lemma NeverStuck(tor: Torrent, disk: Bytes, readable: set<nat>, acts: seq<Act>, peer: set<nat>)
    requires Tiled(tor.n, tor.pieceLength, tor.total) && tor.total <= |disk|
    requires Matched(Adopt(tor, disk, readable, tor.n))
    requires LegalRun(tor, Opened(Adopt(tor, disk, readable, tor.n), disk), acts)
    requires forall i :: 0 <= i < tor.n ==> i in peer
    ensures var p := Run(tor, Opened(Adopt(tor, disk, readable, tor.n), disk), acts).picker;
      && Shape(p)
      && (Missing(p) != {} ==>
            !LegalPick(p, peer, None) || (p.mode == Endgame && exists r :: IsEndgameRequest(p, peer, r)))
  {
    hide Tiled, Adopt, LegalRun, Run, Starts, Matched, Books, DiskAgrees, Pipelined, LegalPick, IsEndgameRequest,
      Missing, Inv, Roomy;
    var start := Adopt(tor, disk, readable, tor.n);
    AdoptedStarts(tor, disk, readable);
    AdoptedRoomy(tor, disk, readable);
    RunKeepsSafe(tor, start, disk, acts);
    RunRoomy(tor, start, disk, acts);
    var p := Run(tor, Opened(start, disk), acts).picker;
    SoundIs(tor, p);
    if Missing(p) != {} {
      SomethingToAsk(p, peer);
    }
  }

  lemma AdoptedRoomy(tor: Torrent, disk: Bytes, readable: set<nat>)
    requires Tiled(tor.n, tor.pieceLength, tor.total)
    ensures Roomy(Adopt(tor, disk, readable, tor.n))
  {
    hide Tiled, Adopt, Intact;
    AdoptsExactly(tor, disk, readable, tor.n);
    hide Inv;
    assert |Adopt(tor, disk, readable, tor.n).inProgress| == 0;
  }
}
