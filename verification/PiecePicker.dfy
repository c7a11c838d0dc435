/** The piece picker object, updated in place by the session. */
module PiecePicker {
  import opened ByteStrings
  import opened Wrappers
  import opened Metainfo
  import opened InfoLengths
  import opened DiskSpans
  import opened Sorting
  import opened PickerSpec
  import opened PickerLaws
  import BF = Bitfield
  import PP = PieceProgress

  /** The values of the in-progress pieces. */
  ghost function Views(pieces: map<nat, PP.PieceProgress>): map<nat, Prog>
    reads pieces.Values
  {
    map i | i in pieces :: pieces[i].View()
  }

  /** No object stands for two pieces. */
  ghost predicate Distinct(pieces: map<nat, PP.PieceProgress>) {
    forall i, j :: i in pieces && j in pieces && i != j ==> pieces[i] != pieces[j]
  }

  ghost predicate AllValid(pieces: map<nat, PP.PieceProgress>)
    reads pieces.Values
  {
    Distinct(pieces) && forall i :: i in pieces ==> pieces[i].Valid()
  }

  /** As long as the piece objects themselves are not written to, they read as before. */
  twostate lemma Unmoved(pieces: map<nat, PP.PieceProgress>)
    requires forall i :: i in pieces ==> unchanged(pieces[i])
    ensures Views(pieces) == old(Views(pieces))
    ensures AllValid(pieces) <==> old(AllValid(pieces))
  {
  }

  /** Writing to the object of piece i changes the value of piece i alone. */
  twostate lemma MovedOne(pieces: map<nat, PP.PieceProgress>, new i: nat)
    requires Distinct(pieces) && i in pieces
    requires forall j :: j in pieces && j != i ==> unchanged(pieces[j])
    ensures Views(pieces) == old(Views(pieces))[i := pieces[i].View()]
    ensures old(AllValid(pieces)) && pieces[i].Valid() ==> AllValid(pieces)
  {
  }

  lemma ViewsKeys(pieces: map<nat, PP.PieceProgress>)
    ensures Views(pieces).Keys == pieces.Keys && |Views(pieces)| == |pieces|
  {
    assert |Views(pieces)| == |Views(pieces).Keys| && |pieces| == |pieces.Keys|;
  }

  class PiecePicker {
    const numPieces: nat
    const pieceLength: nat
    const totalLength: nat
    var availability: seq<nat>
    const have: BF.Bitfield
    var inProgress: map<nat, PP.PieceProgress>
    var mode: Mode
    var verifiedCount: nat

    ghost function Repr(): set<object>
      reads this
    {
      {this as object, have} + inProgress.Values
    }

    ghost function View(): Picker
      requires BF.ByteLength(numPieces) <= |have.bits| && have.numPieces == numPieces
      reads this, have, inProgress.Values
    {
      Picker(numPieces, pieceLength, totalLength, availability, have.View(), Views(inProgress), mode, verifiedCount)
    }

    ghost predicate Valid()
      reads this, have, inProgress.Values
    {
      && have.Valid() && have.numPieces == numPieces
      && AllValid(inProgress)
      && Shape(View())
    }

    constructor (n: nat, pieceLength: nat, totalLength: nat)
      requires Tiled(n, pieceLength, totalLength)
      ensures Valid() && fresh(Repr()) && View() == NewPicker(n, pieceLength, totalLength)
    {
      numPieces, this.pieceLength, this.totalLength := n, pieceLength, totalLength;
      availability := seq(n, _ => 0);
      have := new BF.Bitfield(n);
      inProgress := map[];
      mode := RandomFirst;
      verifiedCount := 0;
      new;
      NewPickerInv(n, pieceLength, totalLength);
    }

    /** Count one more holder of each of a peer's pieces. */
    method CountUp(peer: BF.Bitfield)
      requires |availability| == numPieces && peer.Valid()
      modifies this`availability
      ensures availability == CountedUp(old(availability), peer.View())
    {
      hide BF.BitSet;
      ghost var counts, pieces := availability, peer.View();
      for i := 0 to peer.numPieces
        invariant |availability| == numPieces
        invariant forall k :: 0 <= k < |availability| ==>
          availability[k] == if k < i && k in pieces then SaturatingInc(counts[k]) else counts[k]
      {
        if peer.Has(i) && i < numPieces {
          availability := availability[i := SaturatingInc(availability[i])];
        }
      }
    }

    method PeerHasBitfield(peer: BF.Bitfield)
      requires Valid() && peer.Valid()
      modifies this`availability
      ensures Valid() && View() == PickerSpec.PeerHasBitfield(old(View()), peer.View())
    {
      hide Shape, AllValid, Views, BF.BitSet;
      ghost var p := View();
      ShapeCounts(p);
      CountUp(peer);
      Unmoved(inProgress);
      CountsInRange(p.availability, peer.View());
      ShapeAvailability(p, availability);
    }

    method PeerHasPiece(piece: nat)
      requires Valid()
      modifies this`availability
      ensures Valid() && View() == PickerSpec.PeerHasPiece(old(View()), piece)
    {
      hide Shape, AllValid, Views;
      ghost var p := View();
      ShapeCounts(p);
      if piece < numPieces {
        availability := availability[piece := SaturatingInc(availability[piece])];
      }
      Unmoved(inProgress);
      ShapeAvailability(p, availability);
    }

    /** Count one holder less of each of a peer's pieces. */
    method CountDown(peer: BF.Bitfield)
      requires |availability| == numPieces && peer.Valid()
      modifies this`availability
      ensures availability == CountedDown(old(availability), peer.View())
    {
      hide BF.BitSet;
      ghost var counts, pieces := availability, peer.View();
      for i := 0 to peer.numPieces
        invariant |availability| == numPieces
        invariant forall k :: 0 <= k < |availability| ==>
          availability[k] == if k < i && k in pieces then SaturatingDec(counts[k]) else counts[k]
      {
        if peer.Has(i) && i < numPieces {
          availability := availability[i := SaturatingDec(availability[i])];
        }
      }
    }

    method PeerDisconnected(peer: BF.Bitfield)
      requires Valid() && peer.Valid()
      modifies this`availability
      ensures Valid() && View() == PickerSpec.PeerDisconnected(old(View()), peer.View())
    {
      hide Shape, AllValid, Views, BF.BitSet;
      ghost var p := View();
      ShapeCounts(p);
      CountDown(peer);
      Unmoved(inProgress);
      CountsInRange(p.availability, peer.View());
      ShapeAvailability(p, availability);
    }

    method CheckMode()
      requires Valid()
      modifies this`mode
      ensures Valid() && View() == PickerSpec.CheckMode(old(View()))
    {
      hide Shape, AllValid, Views;
      ghost var p := View();
      MissingCount(p);
      ViewsKeys(inProgress);
      var remaining := numPieces - have.count;
      if mode != Endgame && remaining > 0 && |inProgress| == remaining {
        mode := Endgame;
      }
      Unmoved(inProgress);
      ShapeMode(p, mode);
    }

    /** Ask for the least free block of a piece in progress. */
    method AskFrom(i: nat) returns (r: Option<BlockRequest>)
      requires Valid() && i in inProgress
      modifies inProgress[i]
      ensures Valid()
      ensures r.Some? <==> HasFree(old(View()).inProgress[i])
      ensures r.None? ==> View() == old(View())
      ensures r.Some? ==> AskedFrom(old(View()), i, r.value, View())
    {
      hide Shape, Views, LeastFree, BlockLength, AllValid, Distinct, Ask, AskedFrom;
      ghost var p := View();
      ViewsAt(inProgress, i);
      OneValid(inProgress, i);
      ShapeProg(p, i);
      var progress := inProgress[i];
      ghost var before := progress.View();
      var block := progress.AssignNextBlock();
      if block.Some? {
        progress.AddPeer();
        LeastFreeFree(before);
        ShapeAsk(p, i, block.value);
        r := Some(BlockRequest(i, block.value * BLOCK_SIZE, progress.LengthOfBlock(block.value)));
        AskIs(before, block.value, progress.View());
        AskedIs(p, i, r.value);
      } else {
        assert p.inProgress[i := before] == p.inProgress;
        r := None;
      }
      MovedOne(inProgress, i);
      assert have.View() == old(have.View()) && have.Valid();
      assert View() == p.(inProgress := p.inProgress[i := progress.View()]);
    }

    /** The in-progress pieces the peer has, with the number of peers working on each. */
    method Contended(peer: BF.Bitfield) returns (pieces: seq<(nat, nat)>)
      requires Valid() && peer.Valid()
      ensures forall i: nat, a: nat :: (i, a) in pieces <==>
        i in inProgress && i in peer.View() && a == inProgress[i].activePeers
    {
      pieces := [];
      var keys := inProgress.Keys;
      while keys != {}
        invariant keys <= inProgress.Keys
        invariant forall i: nat, a: nat :: (i, a) in pieces <==>
          i in inProgress && i !in keys && i in peer.View() && a == inProgress[i].activePeers
        decreases |keys|
      {
        var i :| i in keys;
        keys := keys - {i};
        if peer.Has(i) {
          pieces := pieces + [(i, inProgress[i].activePeers)];
        }
      }
    }

    /** Does a random number divide by n? With n = 1 it always does. */
    method Dice(n: nat) returns (hit: bool)
      requires n > 0
      ensures n == 1 ==> hit
    {
      var roll: nat := *;
      hit := roll % n == 0;
    }

    /** One pass for a rarest piece to start; equally rare ones are chosen among by dice. */
    method PickPiece(peer: BF.Bitfield) returns (best: Option<nat>)
      requires Valid() && peer.Valid()
      ensures best.Some? ==> Rarest(View(), peer.View(), best.value)
      ensures best.None? ==> NothingToStart(View(), peer.View())
    {
      hide Shape, AllValid, Views;
      ghost var p, pieces := View(), peer.View();
      ShapeCounts(p);
      ViewsKeys(inProgress);
      hide CanStart, BestOf;
      best := None;
      var bestAvail := U16_MAX;
      var bestCount := 0;
      BestStart(p, pieces);
      for i := 0 to numPieces
        invariant BestOf(p, pieces, i, best, bestAvail, bestCount)
      {
        BestNext(p, pieces, i, best, bestAvail, bestCount);
        CanStartIs(p, pieces, i);
        if !peer.Has(i) || have.Has(i) || i in inProgress {
          continue;
        }
        var avail := availability[i];
        if avail < bestAvail {
          bestAvail := avail;
          best := Some(i);
          bestCount := 1;
        } else if avail == bestAvail {
          bestCount := bestCount + 1;
          var hit := Dice(bestCount);
          if hit {
            best := Some(i);
          }
        }
      }
      BestEnd(p, pieces, best, bestAvail, bestCount);
    }

    /** Mark a block of a piece in progress received and, if it is new, copy its bytes. */
    method ReceiveInto(piece: nat, offset: nat, bytes: Bytes) returns (isNew: bool)
      requires Valid() && piece in inProgress
      modifies inProgress[piece]
      ensures Valid()
      ensures ProgInv(old(View()).inProgress[piece])
      ensures isNew == IsNew(old(View()).inProgress[piece], offset / BLOCK_SIZE)
      ensures View() == if isNew then old(View()).(inProgress := old(View()).inProgress[piece :=
                                        ReceiveBlock(old(View()).inProgress[piece], offset, bytes)])
                        else old(View())
    {
      hide Shape, AllValid, Views, Distinct, Splice;
      ghost var p := View();
      ViewsAt(inProgress, piece);
      ShapeProg(p, piece);
      OneValid(inProgress, piece);
      var progress := inProgress[piece];
      ghost var before := progress.View();
      isNew := progress.MarkReceived(offset / BLOCK_SIZE);
      if isNew {
        progress.CopyData(offset, bytes);
      }
      MovedOne(inProgress, piece);
      assert have.View() == old(have.View()) && have.Valid();
      assert View() == p.(inProgress := p.inProgress[piece := progress.View()]);
      assert p.inProgress[piece := before] == p.inProgress;
      ShapeWith(p, piece, progress.View());
    }

    method Remove(piece: nat)
      requires Valid()
      modifies this`inProgress
      ensures Valid() && inProgress == old(inProgress) - {piece}
      ensures View() == old(View()).(inProgress := old(View()).inProgress - {piece})
    {
      hide Shape, AllValid, Views;
      ViewsRemove(inProgress, piece);
      ShapeRemove(View(), piece);
      inProgress := inProgress - {piece};
    }

    method BlockReceived(piece: nat, offset: nat, bytes: Bytes) returns (r: BlockResult)
      requires Valid()
      modifies this`inProgress, inProgress.Values
      ensures Valid() && inProgress.Keys <= old(inProgress.Keys)
      ensures forall i :: i in inProgress ==> inProgress[i] == old(inProgress[i])
      ensures Matched(old(View()))
      ensures (View(), r) == PickerSpec.BlockReceived(old(View()), piece, offset, bytes)
    {
      hide Shape, AllValid, Views, Distinct, ReceiveBlock, Matched, BF.BitSet, PickerSpec.BlockReceived, IsNew,
        AllReceived;
      ghost var p := View();
      ShapeProgs(p);
      ViewsKeys(inProgress);
      ReceivedIs(p, piece, offset, bytes);
      if piece !in inProgress {
        return Duplicate;
      }
      var isNew := ReceiveInto(piece, offset, bytes);
      if !isNew {
        return Duplicate;
      }
      ViewsAt(inProgress, piece);
      OneValid(inProgress, piece);
      var progress := inProgress[piece];
      PP.CompleteIffAllReceived(progress.View(), progress.receivedCount);
      if progress.IsComplete() {
        r := PieceComplete(progress.data);
        Remove(piece);
      } else {
        r := Progress(|bytes|);
      }
    }

    method UnassignBlock(piece: nat, offset: nat)
      requires Valid()
      modifies inProgress.Values
      ensures Valid()
      ensures Matched(old(View()))
      ensures View() == PickerSpec.UnassignBlock(old(View()), piece, offset)
    {
      hide Shape, AllValid, Views, Distinct, Matched;
      ghost var p := View();
      ShapeProgs(p);
      ViewsKeys(inProgress);
      if piece in inProgress {
        ViewsAt(inProgress, piece);
        OneValid(inProgress, piece);
        ShapeProg(p, piece);
        var progress := inProgress[piece];
        progress.MarkUnassigned(offset / BLOCK_SIZE);
        MovedOne(inProgress, piece);
        assert have.View() == old(have.View()) && have.Valid();
        assert View() == p.(inProgress := p.inProgress[piece := progress.View()]);
        ShapeWith(p, piece, progress.View());
      }
    }

    method PieceFailed(piece: nat)
      requires Valid()
      modifies this`inProgress
      ensures Valid() && View() == PickerSpec.PieceFailed(old(View()), piece)
      ensures inProgress == old(inProgress) - {piece}
    {
      hide Shape, AllValid, Views, BF.BitSet;
      Remove(piece);
    }

    method CountVerified(piece: nat)
      requires Valid()
      modifies this`verifiedCount, this`mode, have
      ensures Valid() && inProgress == old(inProgress)
      ensures View() == PickerSpec.CountVerified(old(View()), piece)
    {
      hide Shape, AllValid, Views, BF.BitSet;
      ghost var p := View();
      ShapeHave(p, piece);
      have.Set(piece);
      verifiedCount := verifiedCount + 1;
      if mode == RandomFirst && verifiedCount > 0 {
        mode := RarestFirst;
      }
      Unmoved(inProgress);
      assert View() == PickerSpec.CountVerified(p, piece);
    }

    /** Called once a piece's hash has been checked. */
    method MarkVerified(piece: nat)
      requires Valid()
      modifies this`inProgress, this`verifiedCount, this`mode, have
      ensures Valid() && View() == PickerSpec.MarkVerified(old(View()), piece)
      ensures inProgress == old(inProgress) - {piece}
    {
      hide Shape, AllValid, Views, BF.BitSet, PickerSpec.CheckMode, PickerSpec.PieceFailed,
        PickerSpec.CountVerified;
      PieceFailed(piece);
      CountVerified(piece);
      CheckMode();
    }

    predicate IsComplete()
      reads this, have
    {
      have.IsComplete()
    }

    lemma CompleteIffNoneMissing()
      requires Valid()
      ensures IsComplete() <==> Missing(View()) == {}
    {
      MissingCount(View());
    }

    /** Every unreceived block of the in-progress pieces the peer has. */
    method EndgameRequests(peer: BF.Bitfield) returns (requests: seq<BlockRequest>)
      requires Valid() && peer.Valid()
      ensures forall r :: r in requests <==> IsEndgameRequest(View(), peer.View(), r)
    {
      hide Shape, AllValid, Views, BF.BitSet, IsEndgameRequest, BlockLength;
      ghost var p, pieces := View(), peer.View();
      requests := [];
      var keys := inProgress.Keys;
      ViewsKeys(inProgress);
      RequestsInProgress(p, pieces);
      while keys != {}
        invariant keys <= inProgress.Keys
        invariant forall r :: r in requests <==> IsEndgameRequest(p, pieces, r) && r.piece !in keys
        decreases |keys|
      {
        var i :| i in keys;
        keys := keys - {i};
        OneValid(inProgress, i);
        ViewsAt(inProgress, i);
        var more := [];
        if peer.Has(i) {
          var blocks := inProgress[i].UnreceivedBlocks();
          more := seq(|blocks|, k requires 0 <= k < |blocks| =>
            BlockRequest(i, blocks[k].0 * BLOCK_SIZE, blocks[k].1));
          RequestsOf(blocks, more, i, p.inProgress[i]);
        }
        RequestsAt(p, pieces, i, more);
        requests := requests + more;
      }
    }

    /** Start a piece that is not in progress. */
    method StartPiece(i: nat)
      requires Valid() && i < numPieces && i !in inProgress
      modifies this`inProgress
      ensures Valid() && pieceLength > 0
      ensures i in inProgress && fresh(inProgress[i]) && inProgress == old(inProgress)[i := inProgress[i]]
      ensures View() == old(View()).(inProgress := old(View()).inProgress[i := NewProg(LengthOf(old(View()), i))])
      ensures HasFree(NewProg(LengthOf(old(View()), i)))
    {
      hide Shape, AllValid, Views, BF.BitSet, NewProg;
      ghost var p := View();
      ShapePositive(p);
      ShapeStart(p, i);
      var progress := new PP.PieceProgress(PickerPieceLength(numPieces, pieceLength, totalLength, i));
      ViewsAdd(inProgress, i, progress);
      inProgress := inProgress[i := progress];
      assert View() == p.(inProgress := p.inProgress[i := NewProg(LengthOf(p, i))]);
    }

    /** Ask for a block of a piece in progress, the least contended pieces first. */
    method ContinuePiece(peer: BF.Bitfield) returns (r: Option<BlockRequest>, ghost choice: Option<nat>)
      requires Valid() && peer.Valid()
      modifies inProgress.Values
      ensures Valid()
      ensures r.Some? <==> choice.Some?
      ensures choice.None? ==> View() == old(View()) && NothingToContinue(old(View()), old(peer.View()))
      ensures choice.Some? ==> LegalPick(old(View()), old(peer.View()), choice)
      ensures choice.Some? ==> PickedBlock(old(View()), choice.value, r, View())
    {
      hide Shape, AllValid, Views, BF.BitSet, LegalPick, CanContinue, AskedFrom, HasFree, PickedBlock, LeastFree,
        Exhausted, NothingToContinue, SortedBy, Distinct;
      ghost var p, pieces := View(), peer.View();
      ExhaustedStart(p, pieces);
      var contended := Contended(peer);
      var sorted := SortByKey(contended, ContentionKey);
      SortSorts(contended, ContentionKey);
      ViewsActive(inProgress);
      for k := 0 to |sorted|
        invariant Valid() && View() == p
        invariant Exhausted(p, pieces, sorted, k)
      {
        var i := sorted[k].0;
        assert sorted[k] in sorted && (i, sorted[k].1) in contended;
        r := AskFrom(i);
        ContinueIs(p, pieces, i);
        if r.Some? {
          choice := Some(i);
          LeastContended(p, pieces, sorted, k);
          ContinuedPick(p, i, r.value, View());
          return;
        }
        ExhaustedNext(p, pieces, sorted, k);
      }
      NoneContinues(p, pieces, sorted);
      r, choice := None, None;
    }

    /** Continue a piece the peer has, the least contended first, or start a rarest one. */
    method PickBlock(peer: BF.Bitfield) returns (r: Option<BlockRequest>, ghost choice: Option<nat>)
      requires Valid() && peer.Valid()
      modifies this`inProgress, this`mode, inProgress.Values
      ensures Valid() && fresh(inProgress.Values - old(inProgress.Values))
      ensures LegalPick(old(View()), old(peer.View()), choice)
      ensures choice.None? ==> r.None? && View() == old(View())
      ensures choice.Some? ==> PickedBlock(old(View()), choice.value, r, View())
    {
      hide Shape, AllValid, Views, BF.BitSet, LegalPick, CanContinue, Rarest, NothingToStart, NothingToContinue,
        AskedFrom, HasFree, PickedBlock, LeastFree, PickerSpec.CheckMode;
      ghost var p, pieces := View(), peer.View();
      r, choice := ContinuePiece(peer);
      if r.Some? {
        return;
      }
      var best := PickPiece(peer);
      choice := best;
      if best.None? {
        StopLegal(p, pieces);
        return None, None;
      }
      var i := best.value;
      StartLegal(p, pieces, i);
      ViewsKeys(inProgress);
      StartPiece(i);
      ghost var started := View();
      r := AskFrom(i);
      StartedPick(p, i, r.value, started, View());
      CheckMode();
    }
  }

  lemma CountsInRange(counts: seq<nat>, peer: set<nat>)
    requires forall i :: 0 <= i < |counts| ==> counts[i] <= U16_MAX
    ensures forall i :: 0 <= i < |counts| ==> CountedUp(counts, peer)[i] <= U16_MAX
    ensures forall i :: 0 <= i < |counts| ==> CountedDown(counts, peer)[i] <= U16_MAX
  {
  }

  lemma ReceivedIs(p: Picker, piece: nat, offset: nat, bytes: Bytes)
    requires Matched(p)
    ensures piece !in p.inProgress || !IsNew(p.inProgress[piece], offset / BLOCK_SIZE) ==>
      PickerSpec.BlockReceived(p, piece, offset, bytes) == (p, Duplicate)
    ensures piece in p.inProgress && IsNew(p.inProgress[piece], offset / BLOCK_SIZE) ==>
      var after := ReceiveBlock(p.inProgress[piece], offset, bytes);
      PickerSpec.BlockReceived(p, piece, offset, bytes)
        == if AllReceived(after)
           then (p.(inProgress := p.inProgress[piece := after] - {piece}), PieceComplete(after.data))
           else (p.(inProgress := p.inProgress[piece := after]), Progress(|bytes|))
  {
    hide AllReceived, ReceiveBlock, IsNew;
    if piece in p.inProgress && IsNew(p.inProgress[piece], offset / BLOCK_SIZE) {
      var after := ReceiveBlock(p.inProgress[piece], offset, bytes);
      assert p.inProgress[piece := after] - {piece} == p.inProgress - {piece};
    }
  }

  function ContentionKey(piece: (nat, nat)): nat {
    piece.1
  }

  /** The outcome of a pick of piece i: the request made and the picker afterwards. */
  ghost predicate PickedBlock(p: Picker, i: nat, r: Option<BlockRequest>, q: Picker) {
    p.pieceLength > 0 && Pickable(p, i) && r == Some(Requested(p, i)) && q == AfterPick(p, i)
  }

  lemma ShapePositive(p: Picker)
    requires Shape(p)
    ensures p.pieceLength > 0
  {
  }

  lemma ContinueIs(p: Picker, peer: set<nat>, i: nat)
    requires Shape(p)
    ensures CanContinue(p, peer, i) <==> i in p.inProgress && i in peer && HasFree(p.inProgress[i])
  {
  }

  /** What the collected list says about the pieces. */
  lemma ViewsActive(pieces: map<nat, PP.PieceProgress>)
    ensures Views(pieces).Keys == pieces.Keys
    ensures forall i :: i in pieces ==> Views(pieces)[i].activePeers == pieces[i].activePeers
  {
  }

  /** None of the first k pieces has a free block. */
  ghost predicate Exhausted(p: Picker, peer: set<nat>, sorted: seq<(nat, nat)>, k: nat)
    requires Shape(p)
  {
    k <= |sorted| && forall m :: 0 <= m < k ==> !CanContinue(p, peer, sorted[m].0)
  }

  lemma ExhaustedStart(p: Picker, peer: set<nat>)
    requires Shape(p)
    ensures forall sorted :: Exhausted(p, peer, sorted, 0)
  {
  }

  lemma ExhaustedNext(p: Picker, peer: set<nat>, sorted: seq<(nat, nat)>, k: nat)
    requires Shape(p) && k < |sorted| && Exhausted(p, peer, sorted, k) && !CanContinue(p, peer, sorted[k].0)
    ensures Exhausted(p, peer, sorted, k + 1)
  {
    hide CanContinue;
  }

  lemma LeastContended(p: Picker, peer: set<nat>, sorted: seq<(nat, nat)>, k: nat)
    requires Shape(p) && k < |sorted| && SortedBy(sorted, ContentionKey)
    requires forall i: nat, a: nat :: (i, a) in sorted <==>
      i in p.inProgress && i in peer && a == p.inProgress[i].activePeers
    requires Exhausted(p, peer, sorted, k) && CanContinue(p, peer, sorted[k].0)
    ensures LegalPick(p, peer, Some(sorted[k].0))
  {
    hide HasFree;
    var i := sorted[k].0;
    assert (i, sorted[k].1) in sorted;
    forall j: nat | CanContinue(p, peer, j)
      ensures p.inProgress[i].activePeers <= p.inProgress[j].activePeers
    {
      assert (j, p.inProgress[j].activePeers) in sorted;
      var m :| 0 <= m < |sorted| && sorted[m] == (j, p.inProgress[j].activePeers);
      assert m >= k;
      assert ContentionKey(sorted[k]) <= ContentionKey(sorted[m]);
    }
  }

  ghost predicate NothingToContinue(p: Picker, peer: set<nat>)
    requires Shape(p)
  {
    forall j: nat :: !CanContinue(p, peer, j)
  }

  lemma NoneContinues(p: Picker, peer: set<nat>, sorted: seq<(nat, nat)>)
    requires Shape(p)
    requires forall i: nat, a: nat :: (i, a) in sorted <==>
      i in p.inProgress && i in peer && a == p.inProgress[i].activePeers
    requires Exhausted(p, peer, sorted, |sorted|)
    ensures NothingToContinue(p, peer)
  {
    hide HasFree;
    forall j: nat
      ensures !CanContinue(p, peer, j)
    {
      if j in p.inProgress && j in peer {
        assert (j, p.inProgress[j].activePeers) in sorted;
        var m :| 0 <= m < |sorted| && sorted[m] == (j, p.inProgress[j].activePeers);
      }
    }
  }

  lemma StopLegal(p: Picker, peer: set<nat>)
    requires Shape(p)
    requires NothingToContinue(p, peer)
    requires NothingToStart(p, peer)
    ensures LegalPick(p, peer, None)
  {
    hide CanContinue, CanStart;
  }

  lemma StartLegal(p: Picker, peer: set<nat>, i: nat)
    requires Shape(p)
    requires NothingToContinue(p, peer)
    requires Rarest(p, peer, i)
    ensures LegalPick(p, peer, Some(i)) && i < p.numPieces && i !in p.inProgress
  {
    hide CanContinue;
  }

  lemma ContinuedPick(p: Picker, i: nat, r: BlockRequest, q: Picker)
    requires Shape(p) && i in p.inProgress && HasFree(p.inProgress[i]) && AskedFrom(p, i, r, q)
    ensures PickedBlock(p, i, Some(r), q)
  {
    hide BlockLength, Ask;
  }

  lemma StartedPick(p: Picker, i: nat, r: BlockRequest, started: Picker, q: Picker)
    requires Shape(p) && i !in p.inProgress && p.pieceLength > 0
    requires started == p.(inProgress := p.inProgress[i := NewProg(LengthOf(p, i))])
    requires Shape(started) && HasFree(started.inProgress[i]) && AskedFrom(started, i, r, q)
    ensures PickedBlock(p, i, Some(r), PickerSpec.CheckMode(q))
  {
    hide BlockLength, Ask, NewProg, PickerSpec.CheckMode, LengthOf;
    var prog := ProgOf(p, i);
    assert started.inProgress[i] == prog;
    var b := LeastFree(prog, 0).value;
    assert started.inProgress[i := Ask(prog, b)] == p.inProgress[i := Ask(prog, b)];
  }

  /** The rarest startable piece among the first i, how rare it is, and how many tie with it. */
  ghost predicate BestOf(p: Picker, peer: set<nat>, i: nat, best: Option<nat>, avail: nat, count: nat)
    requires |p.availability| == p.numPieces
  {
    && (best.None? ==> avail == U16_MAX && count == 0 && forall j: nat :: j < i ==> !CanStart(p, peer, j))
    && (best.Some? ==> count > 0 && best.value < i && CanStart(p, peer, best.value)
                       && p.availability[best.value] == avail)
    && (forall j: nat :: j < i && CanStart(p, peer, j) ==> avail <= p.availability[j])
  }

  /** A startable piece that no startable piece is rarer than. */
  ghost predicate Rarest(p: Picker, peer: set<nat>, i: nat)
    requires |p.availability| == p.numPieces
  {
    CanStart(p, peer, i) && forall j: nat :: CanStart(p, peer, j) ==> p.availability[i] <= p.availability[j]
  }

  ghost predicate NothingToStart(p: Picker, peer: set<nat>) {
    forall j: nat :: !CanStart(p, peer, j)
  }

  lemma BestStart(p: Picker, peer: set<nat>)
    requires |p.availability| == p.numPieces
    ensures BestOf(p, peer, 0, None, U16_MAX, 0)
  {
  }

  lemma CanStartIs(p: Picker, peer: set<nat>, i: nat)
    ensures CanStart(p, peer, i) <==> i < p.numPieces && i in peer && i !in p.have && i !in p.inProgress
  {
  }

  /** What the pass may do at piece i. */
  lemma BestNext(p: Picker, peer: set<nat>, i: nat, best: Option<nat>, avail: nat, count: nat)
    requires |p.availability| == p.numPieces && i < p.numPieces && p.availability[i] <= U16_MAX
    requires BestOf(p, peer, i, best, avail, count)
    ensures !CanStart(p, peer, i) ==> BestOf(p, peer, i + 1, best, avail, count)
    ensures CanStart(p, peer, i) && p.availability[i] < avail ==>
      BestOf(p, peer, i + 1, Some(i), p.availability[i], 1)
    ensures CanStart(p, peer, i) && p.availability[i] > avail ==> BestOf(p, peer, i + 1, best, avail, count)
    ensures CanStart(p, peer, i) && p.availability[i] == avail ==>
      BestOf(p, peer, i + 1, Some(i), avail, count + 1)
      && (count > 0 ==> BestOf(p, peer, i + 1, best, avail, count + 1))
  {
    hide CanStart;
  }

  lemma BestEnd(p: Picker, peer: set<nat>, best: Option<nat>, avail: nat, count: nat)
    requires |p.availability| == p.numPieces && BestOf(p, peer, p.numPieces, best, avail, count)
    ensures best.Some? ==> Rarest(p, peer, best.value)
    ensures best.None? ==> NothingToStart(p, peer)
  {
  }

  /** The unreceived blocks of one piece in progress. */
  ghost predicate RequestsIn(prog: Prog, i: nat, r: BlockRequest) {
    && r.piece == i && r.offset % BLOCK_SIZE == 0
    && IsNew(prog, r.offset / BLOCK_SIZE) && r.length == BlockLength(prog.length, r.offset / BLOCK_SIZE)
  }

  lemma RequestsOf(blocks: seq<(nat, nat)>, more: seq<BlockRequest>, i: nat, prog: Prog)
    requires forall b: nat, n: nat :: (b, n) in blocks <==> IsNew(prog, b) && n == BlockLength(prog.length, b)
    requires |more| == |blocks|
    requires forall k :: 0 <= k < |more| ==> more[k] == BlockRequest(i, blocks[k].0 * BLOCK_SIZE, blocks[k].1)
    ensures forall r :: r in more <==> RequestsIn(prog, i, r)
  {
    hide BlockLength;
    forall r
      ensures r in more <==> RequestsIn(prog, i, r)
    {
      var b := r.offset / BLOCK_SIZE;
      if r in more {
        var k :| 0 <= k < |more| && more[k] == r;
        assert (blocks[k].0, blocks[k].1) in blocks;
      }
      if RequestsIn(prog, i, r) {
        assert (b, r.length) in blocks;
        var k :| 0 <= k < |blocks| && blocks[k] == (b, r.length);
        assert more[k] == r;
      }
    }
  }

  lemma RequestsAt(p: Picker, peer: set<nat>, i: nat, more: seq<BlockRequest>)
    requires i in p.inProgress
    requires i in peer ==> forall r :: r in more <==> RequestsIn(p.inProgress[i], i, r)
    requires i !in peer ==> more == []
    ensures forall r :: r in more <==> IsEndgameRequest(p, peer, r) && r.piece == i
  {
    hide BlockLength, IsNew;
  }

  lemma RequestsInProgress(p: Picker, peer: set<nat>)
    ensures forall r :: IsEndgameRequest(p, peer, r) ==> r.piece in p.inProgress
  {
  }

  /** From p, the least free block of piece i has been asked for, giving q. */
  ghost predicate AskedFrom(p: Picker, i: nat, r: BlockRequest, q: Picker)
    requires Shape(p) && i in p.inProgress && HasFree(p.inProgress[i])
  {
    var prog := p.inProgress[i];
    var b := LeastFree(prog, 0).value;
    && r == BlockRequest(i, b * BLOCK_SIZE, BlockLength(prog.length, b))
    && q == p.(inProgress := p.inProgress[i := Ask(prog, b)])
  }

  lemma ViewsRemove(pieces: map<nat, PP.PieceProgress>, i: nat)
    ensures Views(pieces - {i}) == Views(pieces) - {i}
    ensures AllValid(pieces) ==> AllValid(pieces - {i})
  {
  }

  lemma ViewsAdd(pieces: map<nat, PP.PieceProgress>, i: nat, piece: PP.PieceProgress)
    requires forall j :: j in pieces ==> pieces[j] != piece
    ensures Views(pieces[i := piece]) == Views(pieces)[i := piece.View()]
    ensures AllValid(pieces) && piece.Valid() ==> AllValid(pieces[i := piece])
  {
  }

  lemma AskedIs(p: Picker, i: nat, r: BlockRequest)
    requires Shape(p) && i in p.inProgress && HasFree(p.inProgress[i])
    ensures var prog := p.inProgress[i];
      var b := LeastFree(prog, 0).value;
      r == BlockRequest(i, b * BLOCK_SIZE, BlockLength(prog.length, b)) ==>
        AskedFrom(p, i, r, p.(inProgress := p.inProgress[i := Ask(prog, b)]))
  {
  }

  lemma AskIs(before: Prog, b: nat, after: Prog)
    requires b < |before.asked|
    ensures after == before.(asked := before.asked[b := true],
                             activePeers := if before.activePeers < U8_MAX then before.activePeers + 1 else U8_MAX)
       <==> after == Ask(before, b)
  {
  }

  lemma OneValid(pieces: map<nat, PP.PieceProgress>, i: nat)
    requires AllValid(pieces) && i in pieces
    ensures Distinct(pieces) && pieces[i].Valid()
    ensures forall j :: j in pieces && j != i ==> pieces[j] != pieces[i]
  {
  }

  lemma ViewsAt(pieces: map<nat, PP.PieceProgress>, i: nat)
    requires i in pieces
    ensures i in Views(pieces) && Views(pieces)[i] == pieces[i].View()
  {
  }

  lemma ShapeProg(p: Picker, i: nat)
    requires Shape(p) && i in p.inProgress
    ensures i < p.numPieces && ProgInv(p.inProgress[i]) && p.pieceLength > 0
    ensures p.inProgress[i].length == LengthOf(p, i)
  {
  }

  lemma ShapeProgs(p: Picker)
    requires Shape(p)
    ensures Matched(p)
  {
  }

  lemma ShapeCounts(p: Picker)
    requires Shape(p)
    ensures |p.availability| == p.numPieces && forall i :: 0 <= i < p.numPieces ==> p.availability[i] <= U16_MAX
  {
  }
}
