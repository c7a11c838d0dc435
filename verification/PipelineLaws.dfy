/** Refilling leaves no work behind: whoever could be asked for a block has been. */
module PipelineLaws {
  import opened Wrappers
  import opened Address
  import opened InfoLengths
  import opened PickerSpec
  import opened PickerLaws
  import opened SessionSpec
  import opened SessionLaws
  import opened SessionHistory

  /** Every block available in q was available in p. */
  ghost predicate Shrinks(p: Picker, q: Picker)
    requires Shape(p) && Shape(q)
  {
    forall peer: set<nat>, i: nat, b: nat :: Available(q, peer, i, b) ==> Available(p, peer, i, b)
  }

  ghost predicate NothingFor(p: Picker, peer: set<nat>)
    requires Shape(p)
  {
    forall i: nat, b: nat :: !Available(p, peer, i, b)
  }

  /** A pick takes its own block from what is available, adds one peer to its piece, and changes nothing else. */
  lemma PickTakesOne(p: Picker, peer: set<nat>, i: nat, other: set<nat>, j: nat, b: nat)
    requires Inv(p) && LegalPick(p, peer, Some(i))
    ensures p.pieceLength > 0 && Pickable(p, i) && Shape(AfterPick(p, i))
    ensures Available(AfterPick(p, i), other, j, b) <==>
      Available(p, other, j, b) && !(j == i && b == Requested(p, i).offset / BLOCK_SIZE)
    ensures AfterPick(p, i).inProgress[i].activePeers
         == (var before := if i in p.inProgress then p.inProgress[i].activePeers else 0;
             if before < 255 then before + 1 else 255)
  {
    hide LegalPick, Inv, Shape, LeastFree, NewProg, ProgInv, HasFree, Tiled, PickerPieceLength, BlockLength;
    PickKeepsInv(p, peer, i);
    PickOfMissing(p, peer, i);
    PickedPieces(p, peer, i);
    InvIsShape(AfterPick(p, i));
    var prog := ProgOf(p, i);
    var least := LeastFree(prog, 0).value;
    BlockIndex(least);
    NewProgFree(LengthOf(p, i), b);
  }

  lemma InvIsShape(p: Picker)
    requires Inv(p)
    ensures Shape(p)
  {
  }

  lemma NewProgFree(length: nat, b: nat)
    ensures |NewProg(length).received| == |NewProg(length).asked|
    ensures Free(NewProg(length), b) <==> b < NumBlocks(length)
    ensures NewProg(length).activePeers == 0
  {
  }

  /** A pick makes nothing available. */
  lemma PickShrinks(p: Picker, peer: set<nat>, i: nat)
    requires Inv(p) && LegalPick(p, peer, Some(i))
    ensures Pickable(p, i) && Shape(AfterPick(p, i)) && Shrinks(p, AfterPick(p, i))
  {
    hide LegalPick, Available, AfterPick, Requested, Pickable, ProgInv, AllReceived, PickerPieceLength;
    PickTakesOne(p, peer, i, {}, 0, 0);
    forall other: set<nat>, j: nat, b: nat | Available(AfterPick(p, i), other, j, b)
      ensures Available(p, other, j, b)
    {
      PickTakesOne(p, peer, i, other, j, b);
    }
  }

  lemma TakeShrinks(tor: Torrent, s: Session, addr: SocketAddr, pick: Pick)
    requires Sound(tor, s.picker) && Matched(s.picker) && Shape(s.picker)
    requires addr in s.bitfields && LegalPick(s.picker, s.bitfields[addr], Some(pick.piece))
    ensures Shape(TakePick(s, addr, pick).picker) && Shrinks(s.picker, TakePick(s, addr, pick).picker)
    ensures Sound(tor, TakePick(s, addr, pick).picker)
  {
    hide Inv, Shape, Matched, LegalPick, AfterPick, Pickable, Requested, Shrinks;
    PickOfMissing(s.picker, s.bitfields[addr], pick.piece);
    PickShrinks(s.picker, s.bitfields[addr], pick.piece);
    PickKeeps(tor, s, addr, pick);
  }

  lemma ShrinksTwice(p: Picker, q: Picker, r: Picker)
    requires Shape(p) && Shape(q) && Shape(r) && Shrinks(p, q) && Shrinks(q, r)
    ensures Shrinks(p, r)
  {
    hide Available, Shape;
  }

  lemma ShrinksSelf(p: Picker)
    requires Shape(p)
    ensures Shrinks(p, p)
  {
  }

  /** Every pick of the fill was sent. */
  predicate AllSent(f: Fill) {
    forall k :: 0 <= k < |f.picks| ==> f.picks[k].sent
  }

  lemma SentOf(f: Fill)
    requires AllSent(f)
    ensures forall k :: 0 <= k < |f.picks| ==> f.picks[k].sent
  {
  }

  /** The fill's peer cannot be asked for more, or there is nothing it could be asked for. */
  ghost predicate Served(s: Session, addr: SocketAddr, depth: nat) {
    Idle(s, addr, depth) || (Shape(s.picker) && NothingFor(s.picker, s.bitfields[addr]))
  }

  /** Picks that were all sent leave their peer with a full pipeline or nothing to ask for. */
  lemma {:induction false} PicksServe(tor: Torrent, s: Session, addr: SocketAddr, left: nat, picks: seq<Pick>)
    requires Sound(tor, s.picker) && Matched(s.picker) && LegalPicks(s, addr, left, picks)
    requires forall k :: 0 <= k < |picks| ==> picks[k].sent
    ensures var t := TakePicks(s, addr, picks);
      Shape(t.picker) && (|picks| == left || NothingFor(t.picker, s.bitfields[addr]))
    ensures |picks| <= left
    ensures addr in s.peers ==>
      (addr in TakePicks(s, addr, picks).peers
       && TakePicks(s, addr, picks).peers[addr].outstanding == s.peers[addr].outstanding + |picks|)
    ensures Shape(s.picker) && Shrinks(s.picker, TakePicks(s, addr, picks).picker)
    decreases |picks|
  {
    hide Sound, Inv, Shape, Matched, LegalPick, TakePick, Shrinks, NothingFor;
    SoundIs(tor, s.picker);
    if picks == [] {
      ShrinksSelf(s.picker);
      if left > 0 {
        NoneAvailable(s.picker, s.bitfields[addr]);
      }
    } else {
      PickKeeps(tor, s, addr, picks[0]);
      TakeShrinks(tor, s, addr, picks[0]);
      var t := TakePick(s, addr, picks[0]);
      PicksServe(tor, t, addr, left - 1, picks[1..]);
      ShrinksTwice(s.picker, t.picker, TakePicks(s, addr, picks).picker);
    }
  }

  lemma NoneAvailable(p: Picker, peer: set<nat>)
    requires Inv(p) && LegalPick(p, peer, None)
    ensures NothingFor(p, peer)
  {
    hide Inv, LegalPick, Available;
    PickComplete(p, peer);
  }

  lemma FillServes(tor: Torrent, s: Session, f: Fill)
    requires Sound(tor, s.picker) && Matched(s.picker) && LegalFill(s, f) && AllSent(f)
    ensures var t := TakePicks(s, f.addr, f.picks);
      && Served(t, f.addr, f.depth)
      && Shape(s.picker) && Shape(t.picker) && Shrinks(s.picker, t.picker)
  {
    hide Sound, Inv, Shape, Matched, LegalPick, LegalPicks, Shrinks, NothingFor;
    hide SameLedger, Pipelined, Verifies;
    SoundIs(tor, s.picker);
    FillKeeps(tor, s, f);
    if Idle(s, f.addr, f.depth) {
      ShrinksSelf(s.picker);
    } else {
      hide TakePicks, AllSent, Available;
      assert forall k :: 0 <= k < |f.picks| ==> f.picks[k].sent by {
        SentOf(f);
      }
      PicksServe(tor, s, f.addr, f.depth - s.peers[f.addr].outstanding, f.picks);
    }
  }

  /** Another peer's fill leaves a served peer served. */
  lemma FillKeepsServed(tor: Torrent, s: Session, f: Fill, addr: SocketAddr, depth: nat)
    requires Sound(tor, s.picker) && Matched(s.picker) && LegalFill(s, f) && AllSent(f)
    requires addr != f.addr && Served(s, addr, depth)
    ensures Served(TakePicks(s, f.addr, f.picks), addr, depth)
  {
    hide Sound, Inv, Shape, Matched, LegalPick, LegalPicks, Available;
    FillServes(tor, s, f);
    FillKeeps(tor, s, f);
    if !Idle(s, f.addr, f.depth) {
      hide TakePicks;
      PicksKeep(tor, s, f.addr, f.depth - s.peers[f.addr].outstanding, f.picks);
    }
  }

  lemma {:induction false} FillsKeepServed(tor: Torrent, s: Session, fills: seq<Fill>, addr: SocketAddr, depth: nat)
    requires Sound(tor, s.picker) && Matched(s.picker) && LegalFills(s, fills)
    requires forall k :: 0 <= k < |fills| ==> AllSent(fills[k]) && fills[k].addr != addr
    requires Served(s, addr, depth)
    ensures Served(TakeFills(s, fills), addr, depth)
    decreases |fills|
  {
    hide Sound, Inv, Shape, Matched, LegalFill, TakePicks, Served;
    if fills != [] {
      FillKeepsServed(tor, s, fills[0], addr, depth);
      FillKeeps(tor, s, fills[0]);
      FillsKeepServed(tor, TakePicks(s, fills[0].addr, fills[0].picks), fills[1..], addr, depth);
    }
  }

  lemma {:induction false} FillsServe(tor: Torrent, s: Session, fills: seq<Fill>, k: nat)
    requires Sound(tor, s.picker) && Matched(s.picker) && LegalFills(s, fills) && k < |fills|
    requires forall i :: 0 <= i < |fills| ==> AllSent(fills[i])
    requires forall i, j :: 0 <= i < j < |fills| ==> fills[i].addr != fills[j].addr
    ensures Served(TakeFills(s, fills), fills[k].addr, fills[k].depth)
    ensures MIN_PIPELINE <= fills[k].depth
    decreases |fills|
  {
    hide Sound, Inv, Shape, Matched, LegalFill, TakePicks, Served, AllSent;
    var t := TakePicks(s, fills[0].addr, fills[0].picks);
    FillKeeps(tor, s, fills[0]);
    if k == 0 {
      FillServes(tor, s, fills[0]);
      FillDepth(s, fills[0]);
      FillsKeepServed(tor, t, fills[1..], fills[0].addr, fills[0].depth);
    } else {
      FillsServe(tor, t, fills[1..], k - 1);
    }
  }

  lemma FillDepth(s: Session, f: Fill)
    requires Matched(s.picker) && LegalFill(s, f)
    ensures MIN_PIPELINE <= f.depth
  {
  }

  /**
   * When a peer chokes us or disconnects, its blocks go to the others: if every request can be sent, then
   * afterwards no unchoked peer with fewer than 64 requests outstanding has a block we could ask it for.
   */
  lemma NoWorkLeft(tor: Torrent, s: Session, e: Event, fills: seq<Fill>, addr: SocketAddr)
    requires Matched(s.picker) && Sound(tor, s.picker) && Legal(tor, s, e, fills) && (e.Choked? || e.Disconnected?)
    requires forall i :: 0 <= i < |fills| ==> AllSent(fills[i])
    requires var t := Step(tor, s, e, fills);
      addr in t.peers && addr in t.bitfields && !t.peers[addr].choking && t.peers[addr].outstanding < MIN_PIPELINE
    ensures var t := Step(tor, s, e, fills);
      Shape(t.picker) && NothingFor(t.picker, t.bitfields[addr])
  {
    var b := Base(tor, s, e);
    hide Sound, Inv, Shape, Matched, Base, LegalFills, TakeFills, AllSent, Possible, NothingFor, Effect,
      SameLedger, Pipelined;
    EventKeeps(tor, s, e);
    FillsKeep(tor, b, fills);
    FillsKeepPeers(tor, b, fills);
    SoundIs(tor, Step(tor, s, e, fills).picker);
    assert addr in b.peers.Keys;
    var k :| 0 <= k < |fills| && fills[k].addr == addr;
    FillsServe(tor, b, fills, k);
  }

  lemma {:induction false} FillsKeepPeers(tor: Torrent, s: Session, fills: seq<Fill>)
    requires Sound(tor, s.picker) && Matched(s.picker) && LegalFills(s, fills)
    ensures TakeFills(s, fills).peers.Keys == s.peers.Keys
    decreases |fills|
  {
    hide Sound, Inv, Shape, Matched, LegalFill, TakePicks;
    if fills != [] {
      FillKeeps(tor, s, fills[0]);
      FillsKeepPeers(tor, TakePicks(s, fills[0].addr, fills[0].picks), fills[1..]);
    }
  }

  /**
   * After a peer's own event, its requests all sent: if it lets us ask, its pipeline is full or it has nothing
   * we could ask it for. In particular an unchoke is answered with requests.
   */
  lemma SpeakerIsServed(tor: Torrent, s: Session, e: Event, fills: seq<Fill>)
    requires Matched(s.picker) && Sound(tor, s.picker) && Legal(tor, s, e, fills)
    requires e.Unchoked? || e.BlockArrived? || e.BitfieldReceived? || e.HaveAll? || e.Have?
    requires forall i :: 0 <= i < |fills| ==> AllSent(fills[i])
    requires e.addr in s.peers
    ensures var t := Step(tor, s, e, fills);
      && Shape(t.picker) && e.addr in t.peers
      && (e.Unchoked? ==> !t.peers[e.addr].choking)
      && (!t.peers[e.addr].choking && e.addr in t.bitfields ==>
            t.peers[e.addr].outstanding >= MIN_PIPELINE || NothingFor(t.picker, t.bitfields[e.addr]))
  {
    var b := Base(tor, s, e);
    hide Sound, Inv, Shape, Matched, AllSent, NothingFor, Effect, SameLedger, Pipelined, LegalFill, Base, Possible;
    EventKeeps(tor, s, e);
    EventPeers(tor, s, e, e.addr);
    FillsKeep(tor, b, fills);
    FillsCount(tor, b, fills);
    SoundIs(tor, Step(tor, s, e, fills).picker);
    FillsServe(tor, b, fills, 0);
  }
}
