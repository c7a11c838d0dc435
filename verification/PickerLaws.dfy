/** What the picker guarantees: sound and complete picks, exact reassembly, endgame, and its invariant. */
module PickerLaws {
  import opened ByteStrings
  import opened Wrappers
  import opened InfoLengths
  import opened Metainfo
  import opened DiskSpans
  import opened PickerSpec

  // ---------------------------------------------------------------- blocks

  /** Block i is bytes [i*16384, min((i+1)*16384, length)): the blocks tile the piece. */
  lemma BlocksTile(length: nat, i: nat)
    requires i < NumBlocks(length)
    ensures 0 < BlockLength(length, i) <= BLOCK_SIZE
    ensures i * BLOCK_SIZE + BlockLength(length, i) <= length
    ensures i + 1 < NumBlocks(length) ==> i * BLOCK_SIZE + BlockLength(length, i) == (i + 1) * BLOCK_SIZE
    ensures i + 1 == NumBlocks(length) ==> i * BLOCK_SIZE + BlockLength(length, i) == length
  {
  }

  // ----------------------------------------------------------- reassembly

  datatype Arrival = Arrival(block: nat, data: Bytes)

  ghost predicate WellFormed(length: nat, a: Arrival) {
    a.block < NumBlocks(length) && |a.data| == BlockLength(length, a.block)
  }

  /** The piece after a sequence of block arrivals, repeated blocks being dropped. */
  function Arrive(p: Prog, arrivals: seq<Arrival>): (q: Prog)
    requires |p.received| == |p.asked|
    ensures |q.received| == |q.asked|
  {
    if arrivals == [] then p
    else
      var q := Arrive(p, arrivals[..|arrivals| - 1]);
      var a := arrivals[|arrivals| - 1];
      if IsNew(q, a.block * BLOCK_SIZE / BLOCK_SIZE) then ReceiveBlock(q, a.block * BLOCK_SIZE, a.data) else q
  }

  /** The copy of block i that arrived first. */
  function FirstCopy(arrivals: seq<Arrival>, i: nat): Option<Bytes> {
    if arrivals == [] then None
    else
      var front := FirstCopy(arrivals[..|arrivals| - 1], i);
      var a := arrivals[|arrivals| - 1];
      if front.Some? then front else if a.block == i then Some(a.data) else None
  }

  ghost predicate Holds(p: Prog, i: nat, copy: Option<Bytes>)
    requires ProgInv(p) && i < NumBlocks(p.length)
  {
    && (p.received[i] <==> copy.Some?)
    && (copy.Some? ==> i * BLOCK_SIZE + BlockLength(p.length, i) <= |p.data|
                       && p.data[i * BLOCK_SIZE..i * BLOCK_SIZE + BlockLength(p.length, i)] == copy.value)
  }

  lemma BlockIndex(i: nat)
    ensures i * BLOCK_SIZE / BLOCK_SIZE == i
  {
  }

  lemma NewProgInv(length: nat)
    requires length > 0
    ensures ProgInv(NewProg(length)) && !AllReceived(NewProg(length)) && HasFree(NewProg(length))
  {
    var p := NewProg(length);
    assert NumBlocks(length) > 0 && !p.received[0] && Free(p, 0);
  }

  /** A well-formed block lands in its own place and disturbs no other block. */
  lemma ReceiveHolds(p: Prog, a: Arrival, i: nat, copy: Option<Bytes>)
    requires ProgInv(p) && WellFormed(p.length, a) && IsNew(p, a.block)
    requires i < NumBlocks(p.length) && Holds(p, i, copy)
    ensures a.block * BLOCK_SIZE / BLOCK_SIZE == a.block
    ensures var q := ReceiveBlock(p, a.block * BLOCK_SIZE, a.data);
      ProgInv(q) && Holds(q, i, if i == a.block then Some(a.data) else copy)
  {
    hide Splice;
    BlockIndex(a.block);
    BlocksTile(p.length, a.block);
    BlocksTile(p.length, i);
    SpliceReads(p.data, a.block * BLOCK_SIZE, a.data, i * BLOCK_SIZE, i * BLOCK_SIZE + BlockLength(p.length, i));
  }

  /** In any order and with any repetition, each received block holds the copy that came first. */
  lemma {:induction false} ArrivalsHold(length: nat, arrivals: seq<Arrival>, i: nat)
    requires length > 0 && i < NumBlocks(length)
    requires forall k :: 0 <= k < |arrivals| ==> WellFormed(length, arrivals[k])
    ensures var p := Arrive(NewProg(length), arrivals);
      ProgInv(p) && p.length == length && Holds(p, i, FirstCopy(arrivals, i))
  {
    hide NewProg, ReceiveBlock, WellFormed, Holds;
    NewProgInv(length);
    if arrivals == [] {
      StartHolds(length, i);
    } else {
      var front, a := arrivals[..|arrivals| - 1], arrivals[|arrivals| - 1];
      ArrivalsHold(length, front, i);
      var p := Arrive(NewProg(length), front);
      BlockIndex(a.block);
      assert WellFormed(length, a);
      if IsNew(p, a.block) {
        ReceiveHolds(p, a, i, FirstCopy(front, i));
        ReceiveLength(p, a);
      } else {
        InRange(length, a);
        ArrivalsHold(length, front, a.block);
        HoldsReceived(p, a.block, FirstCopy(front, a.block));
      }
      if i == a.block {
        HoldsReceived(p, i, FirstCopy(front, i));
      }
    }
  }

  lemma InRange(length: nat, a: Arrival)
    requires WellFormed(length, a)
    ensures a.block < NumBlocks(length)
  {
  }

  lemma HoldsReceived(p: Prog, i: nat, copy: Option<Bytes>)
    requires ProgInv(p) && i < NumBlocks(p.length) && Holds(p, i, copy)
    ensures p.received[i] <==> copy.Some?
  {
  }

  lemma ReceiveLength(p: Prog, a: Arrival)
    requires |p.received| == |p.asked| && IsNew(p, a.block) && a.block * BLOCK_SIZE / BLOCK_SIZE == a.block
    ensures ReceiveBlock(p, a.block * BLOCK_SIZE, a.data).length == p.length
  {
  }

  lemma StartHolds(length: nat, i: nat)
    requires length > 0 && i < NumBlocks(length)
    ensures ProgInv(NewProg(length)) && NewProg(length).length == length && Holds(NewProg(length), i, None)
  {
  }

  /** The first copies of blocks [0, k) in offset order. */
  ghost function InOrder(arrivals: seq<Arrival>, k: nat): Bytes {
    if k == 0 then []
    else InOrder(arrivals, k - 1) + if FirstCopy(arrivals, k - 1).Some? then FirstCopy(arrivals, k - 1).value else []
  }

  /** Where the first k blocks of a piece end. */
  function BlocksEnd(length: nat, k: nat): nat {
    if k == NumBlocks(length) then length else k * BLOCK_SIZE
  }

  lemma {:induction false} InOrderIsData(length: nat, arrivals: seq<Arrival>, k: nat)
    requires length > 0 && k <= NumBlocks(length)
    requires forall j :: 0 <= j < |arrivals| ==> WellFormed(length, arrivals[j])
    requires forall i :: 0 <= i < NumBlocks(length) ==> FirstCopy(arrivals, i).Some?
    ensures |NewProg(length).received| == |NewProg(length).asked|
    ensures var p := Arrive(NewProg(length), arrivals);
      BlocksEnd(length, k) <= |p.data| && p.data[..BlocksEnd(length, k)] == InOrder(arrivals, k)
    decreases k
  {
    hide NewProg, Arrive, FirstCopy, WellFormed, NumBlocks, BlockLength, BlocksEnd, Holds;
    NewProgInv(length);
    if k == 0 {
      NoBlocks(length);
    } else {
      InOrderIsData(length, arrivals, k - 1);
      ArrivalsHold(length, arrivals, k - 1);
      var p := Arrive(NewProg(length), arrivals);
      SlotData(p, k - 1, FirstCopy(arrivals, k - 1).value);
      var start, end := BlocksEnd(length, k - 1), BlocksEnd(length, k);
      assert p.data[..end] == p.data[..start] + p.data[start..end];
    }
  }

  lemma NoBlocks(length: nat)
    requires length > 0
    ensures BlocksEnd(length, 0) == 0
  {
  }

  /** A received block occupies the bytes between the blocks before it and the blocks up to it. */
  lemma SlotData(p: Prog, i: nat, copy: Bytes)
    requires ProgInv(p) && i < NumBlocks(p.length) && Holds(p, i, Some(copy))
    ensures BlocksEnd(p.length, i) <= BlocksEnd(p.length, i + 1) <= |p.data|
    ensures p.data[BlocksEnd(p.length, i)..BlocksEnd(p.length, i + 1)] == copy
  {
    BlocksTile(p.length, i);
  }

  /**
   * Reassembly: with well-formed blocks in any order and with any duplicates, the piece is complete
   * exactly when every block has arrived, and its data is then the first copies in offset order.
   */
  lemma Reassembly(length: nat, arrivals: seq<Arrival>)
    requires length > 0
    requires forall j :: 0 <= j < |arrivals| ==> WellFormed(length, arrivals[j])
    ensures AllReceived(Arrive(NewProg(length), arrivals)) <==> Everything(length, arrivals)
    ensures AllReceived(Arrive(NewProg(length), arrivals)) ==>
      Arrive(NewProg(length), arrivals).data == InOrder(arrivals, NumBlocks(length))
  {
    hide NewProg, Arrive, FirstCopy, WellFormed, Holds, InOrder;
    NewProgInv(length);
    var p := Arrive(NewProg(length), arrivals);
    ArrivalsHold(length, arrivals, 0);
    forall i | 0 <= i < NumBlocks(length)
      ensures p.received[i] <==> FirstCopy(arrivals, i).Some?
    {
      ArrivalsHold(length, arrivals, i);
      HoldsReceived(p, i, FirstCopy(arrivals, i));
    }
    if Everything(length, arrivals) {
      forall i | 0 <= i < |p.received|
        ensures p.received[i]
      {
        assert FirstCopy(arrivals, i).Some?;
      }
    }
    if AllReceived(p) {
      forall i | 0 <= i < NumBlocks(length)
        ensures FirstCopy(arrivals, i).Some?
      {
        assert p.received[i];
      }
      InOrderIsData(length, arrivals, NumBlocks(length));
      assert p.data[..length] == p.data;
    }
  }

  /** Every block of the piece is among the arrivals. */
  ghost predicate Everything(length: nat, arrivals: seq<Arrival>) {
    forall i :: 0 <= i < NumBlocks(length) ==> FirstCopy(arrivals, i).Some?
  }

  /** Same blocks and bytes; who is asked for what may differ. */
  ghost predicate SameContents(p: Prog, q: Prog) {
    p.length == q.length && p.received == q.received && p.data == q.data
  }

  /** Picks and releases do not touch a piece's blocks and bytes. */
  lemma AskingKeepsContents(p: Prog, i: nat)
    requires ProgInv(p)
    ensures Free(p, i) ==> SameContents(Ask(p, i), p)
    ensures SameContents(Unask(p, i), p)
  {
  }

  /**
   * `block_received` on a piece into which `arrivals` have come, picks and releases having happened in
   * between: a repeated block is a duplicate; otherwise the piece is complete exactly when this was the
   * last distinct block, and what is handed on is the first copies in offset order.
   */
  lemma BlockCompletes(p: Picker, piece: nat, arrivals: seq<Arrival>, a: Arrival)
    requires Inv(p) && piece in p.inProgress
    requires var length := p.inProgress[piece].length;
      && (forall j :: 0 <= j < |arrivals| ==> WellFormed(length, arrivals[j]))
      && WellFormed(length, a)
      && SameContents(p.inProgress[piece], Arrive(NewProg(length), arrivals))
    ensures var length := p.inProgress[piece].length;
      var (q, r) := BlockReceived(p, piece, a.block * BLOCK_SIZE, a.data);
      && (r == Duplicate <==> FirstCopy(arrivals, a.block).Some?)
      && (r == Duplicate ==> q == p)
      && (r.PieceComplete? <==> r != Duplicate && Everything(length, arrivals + [a]))
      && (r.PieceComplete? ==> r.data == InOrder(arrivals + [a], NumBlocks(length)) && piece !in q.inProgress)
      && (r.Progress? ==> r.newBytes == |a.data|)
      && (!r.PieceComplete? ==>
            piece in q.inProgress && SameContents(q.inProgress[piece], Arrive(NewProg(length), arrivals + [a])))
  {
    hide NewProg, Arrive, FirstCopy, Holds, InOrder, Everything, SameContents, ReceiveBlock, AllReceived, IsNew,
      NumBlocks, BlockLength, WellFormed, ProgInv, Shape;
    var prog := p.inProgress[piece];
    var length := prog.length;
    ProgressIs(p, piece);
    BlockIndex(a.block);
    NewProgInv(length);
    var before := Arrive(NewProg(length), arrivals);
    NewIffUnseen(prog, before, arrivals, a);
    ArriveSnoc(length, arrivals, a);
    if IsNew(prog, a.block) {
      SameReceive(prog, before, a.block * BLOCK_SIZE, a.data);
      Reassembly(length, arrivals + [a]);
    }
  }

  lemma ProgressIs(p: Picker, piece: nat)
    requires Inv(p) && piece in p.inProgress
    ensures Matched(p) && ProgInv(p.inProgress[piece]) && p.inProgress[piece].length > 0
  {
  }

  /** A block is new exactly when no copy of it has arrived. */
  lemma NewIffUnseen(prog: Prog, before: Prog, arrivals: seq<Arrival>, a: Arrival)
    requires prog.length > 0 && WellFormed(prog.length, a)
    requires forall j :: 0 <= j < |arrivals| ==> WellFormed(prog.length, arrivals[j])
    requires |NewProg(prog.length).received| == |NewProg(prog.length).asked|
    requires before == Arrive(NewProg(prog.length), arrivals) && SameContents(prog, before)
    ensures IsNew(before, a.block) <==> FirstCopy(arrivals, a.block).None?
    ensures IsNew(prog, a.block) <==> FirstCopy(arrivals, a.block).None?
  {
    hide NewProg, Arrive, FirstCopy, Holds;
    ArrivalsHold(prog.length, arrivals, a.block);
    HoldsReceived(before, a.block, FirstCopy(arrivals, a.block));
  }

  /** A block does the same to two pieces of the same contents. */
  lemma SameReceive(p: Prog, q: Prog, offset: nat, data: Bytes)
    requires |p.received| == |p.asked| && |q.received| == |q.asked| && SameContents(p, q)
    requires IsNew(p, offset / BLOCK_SIZE)
    ensures IsNew(q, offset / BLOCK_SIZE)
    ensures var after, other := ReceiveBlock(p, offset, data), ReceiveBlock(q, offset, data);
      SameContents(after, other) && after.data == other.data && (AllReceived(after) <==> AllReceived(other))
  {
    hide Splice;
  }

  lemma ArriveSnoc(length: nat, arrivals: seq<Arrival>, a: Arrival)
    requires |NewProg(length).received| == |NewProg(length).asked|
    ensures var p := Arrive(NewProg(length), arrivals);
      Arrive(NewProg(length), arrivals + [a])
        == if IsNew(p, a.block) then ReceiveBlock(p, a.block * BLOCK_SIZE, a.data) else p
  {
    BlockIndex(a.block);
    assert (arrivals + [a])[..|arrivals|] == arrivals;
  }

  /** Where block i of a piece ends. */
  function SlotEnd(length: nat, i: nat): nat {
    i * BLOCK_SIZE + BlockLength(length, i)
  }

  ghost predicate Disturbs(p: Prog, offset: nat, data: Bytes)
    requires ProgInv(p) && IsNew(p, offset / BLOCK_SIZE)
  {
    exists k :: SlotEnd(p.length, offset / BLOCK_SIZE) <= k < p.length && k < |ReceiveBlock(p, offset, data).data|
                && ReceiveBlock(p, offset, data).data[k] != p.data[k]
  }

  /** No block of this size at this offset writes past its own slot, whatever the piece holds. */
  ghost predicate Confined(length: nat, offset: nat, size: nat) {
    forall p: Prog, data: Bytes ::
      ProgInv(p) && p.length == length && |data| == size && IsNew(p, offset / BLOCK_SIZE) ==> !Disturbs(p, offset, data)
  }

  /**
   * The length of a block is not checked: it is kept out of the blocks after it exactly when it ends inside
   * its own slot, or would end outside the piece and so is not copied at all.
   */
  lemma ConfinedIff(length: nat, offset: nat, size: nat)
    requires length > 0 && offset / BLOCK_SIZE < NumBlocks(length)
    ensures Confined(length, offset, size)
       <==> offset + size <= SlotEnd(length, offset / BLOCK_SIZE) || length < offset + size
  {
    var i := offset / BLOCK_SIZE;
    BlocksTile(length, i);
    if SlotEnd(length, i) < offset + size <= length {
      var p, data := NewProg(length), seq(size, _ => 1);
      NewProgInv(length);
      var k := offset + size - 1;
      assert ReceiveBlock(p, offset, data).data[k] == 1 && p.data[k] == 0;
      assert Disturbs(p, offset, data);
    }
  }

  // ------------------------------------------------------------------ picks

  /** A block that could be asked for: of a piece the peer has and we lack, not received and not asked for. */
  ghost predicate Available(p: Picker, peer: set<nat>, piece: nat, b: nat)
    requires Shape(p)
  {
    && piece < p.numPieces && piece in peer && piece !in p.have
    && b < NumBlocks(LengthOf(p, piece))
    && (piece in p.inProgress ==> Free(p.inProgress[piece], b))
  }

  lemma LengthPositive(p: Picker, i: nat)
    requires Shape(p) && i < p.numPieces
    ensures 0 < LengthOf(p, i) <= p.pieceLength
  {
    PieceBounds(p.numPieces, p.pieceLength, p.total, i);
  }

  lemma LegalIsPickable(p: Picker, peer: set<nat>, i: nat)
    requires Shape(p) && LegalPick(p, peer, Some(i))
    ensures i < p.numPieces && Pickable(p, i)
  {
    if i !in p.inProgress {
      LengthPositive(p, i);
      NewProgInv(LengthOf(p, i));
    }
  }

  lemma PickOfMissing(p: Picker, peer: set<nat>, i: nat)
    requires Inv(p) && LegalPick(p, peer, Some(i))
    ensures i in peer && i !in p.have && i < p.numPieces && p.pieceLength > 0
  {
    hide PickerPieceLength, AllReceived, HasFree;
  }

  /** A pick returns an available block with its exact offset and length. */
  lemma PickSound(p: Picker, peer: set<nat>, i: nat)
    requires Inv(p) && LegalPick(p, peer, Some(i))
    ensures Pickable(p, i)
    ensures var r := Requested(p, i);
      var b := r.offset / BLOCK_SIZE;
      && r.piece == i && r.offset == b * BLOCK_SIZE
      && Available(p, peer, i, b)
      && r.length == BlockLength(LengthOf(p, i), b)
      && (forall j :: 0 <= j < b ==> !Available(p, peer, i, j))
      && (i !in p.inProgress ==> forall j: nat :: CanStart(p, peer, j) ==> p.availability[i] <= p.availability[j])
  {
    LegalIsPickable(p, peer, i);
    var b := LeastFree(ProgOf(p, i), 0).value;
    BlockIndex(b);
    if i !in p.inProgress {
      LengthPositive(p, i);
      NewProgInv(LengthOf(p, i));
      assert b == 0;
    }
  }

  /** Some block of the piece is available to the peer. */
  ghost predicate Offers(p: Picker, peer: set<nat>, piece: nat)
    requires Shape(p)
  {
    exists b: nat :: Available(p, peer, piece, b)
  }

  lemma OffersIs(p: Picker, peer: set<nat>, i: nat)
    requires Inv(p)
    ensures i in p.inProgress ==> (Offers(p, peer, i) <==> CanContinue(p, peer, i))
    ensures i !in p.inProgress ==> (Offers(p, peer, i) <==> CanStart(p, peer, i))
  {
    if i in p.inProgress {
      if CanContinue(p, peer, i) {
        assert Available(p, peer, i, LeastFree(p.inProgress[i], 0).value);
      }
    } else if CanStart(p, peer, i) {
      LengthPositive(p, i);
      assert Available(p, peer, i, 0);
    }
  }

  /**
   * The order of picks: pieces in progress come before new ones, the least contended of them first; among
   * new pieces the rarest come first. Any piece that fits may be picked.
   */
  lemma PickOrderIff(p: Picker, peer: set<nat>, i: nat)
    requires Inv(p)
    ensures LegalPick(p, peer, Some(i)) <==>
      (&& Offers(p, peer, i)
       && (forall j: nat :: j in p.inProgress && Offers(p, peer, j) ==>
             i in p.inProgress && p.inProgress[i].activePeers <= p.inProgress[j].activePeers)
       && (i !in p.inProgress ==> forall j: nat :: Offers(p, peer, j) ==> p.availability[i] <= p.availability[j]))
  {
    hide CanContinue, CanStart, Offers;
    forall j: nat
      ensures j in p.inProgress ==> (Offers(p, peer, j) <==> CanContinue(p, peer, j))
      ensures j !in p.inProgress ==> (Offers(p, peer, j) <==> CanStart(p, peer, j))
      ensures CanContinue(p, peer, j) ==> j in p.inProgress
      ensures CanStart(p, peer, j) ==> j !in p.inProgress && j < p.numPieces
    {
      OffersIs(p, peer, j);
      WhereFrom(p, peer, j);
    }
  }

  lemma WhereFrom(p: Picker, peer: set<nat>, j: nat)
    requires Shape(p)
    ensures CanContinue(p, peer, j) ==> j in p.inProgress
    ensures CanStart(p, peer, j) ==> j !in p.inProgress && j < p.numPieces
  {
    hide HasFree;
  }

  /** There is a pick exactly when some block is available. */
  lemma PickComplete(p: Picker, peer: set<nat>)
    requires Inv(p)
    ensures LegalPick(p, peer, None) <==> forall piece, b :: !Available(p, peer, piece, b)
  {
    if LegalPick(p, peer, None) {
      forall piece, b
        ensures !Available(p, peer, piece, b)
      {
        assert !CanContinue(p, peer, piece) && !CanStart(p, peer, piece);
      }
    } else {
      var j :| CanContinue(p, peer, j) || CanStart(p, peer, j);
      if CanContinue(p, peer, j) {
        var b := LeastFree(p.inProgress[j], 0).value;
        assert Available(p, peer, j, b);
      } else {
        LengthPositive(p, j);
        assert Available(p, peer, j, 0);
      }
    }
  }

  // -------------------------------------------------------------- invariant

  function Range(n: nat): (r: set<nat>)
    ensures forall i: nat :: i in r <==> i < n
    ensures |r| == n
  {
    if n == 0 then {} else Range(n - 1) + {n - 1}
  }

  lemma SubsetSize(a: set<nat>, b: set<nat>)
    requires a <= b
    ensures |a| <= |b|
    ensures |a| == |b| <==> a == b
  {
    assert |b| == |a| + |b - a| by {
      assert a + (b - a) == b;
    }
    if |a| == |b| {
      assert b - a == {};
    }
  }

  /** The pieces not verified yet. */
  function Missing(p: Picker): set<nat> {
    Range(p.numPieces) - p.have
  }

  lemma MissingCount(p: Picker)
    requires Shape(p)
    ensures |Missing(p)| == p.numPieces - |p.have|
    ensures |p.have| <= p.numPieces
  {
    var all := Range(p.numPieces);
    assert p.have + Missing(p) == all && p.have !! Missing(p);
  }

  /** At most the missing pieces are in progress, and all of them are exactly when the counts agree. */
  lemma InProgressIsMissing(p: Picker)
    requires Inv(p)
    ensures p.inProgress.Keys <= Missing(p)
    ensures |p.inProgress| <= p.numPieces - |p.have|
    ensures |p.inProgress| == p.numPieces - |p.have| <==> p.inProgress.Keys == Missing(p)
  {
    MissingCount(p);
    SubsetSize(p.inProgress.Keys, Missing(p));
    assert |p.inProgress| == |p.inProgress.Keys|;
  }

  lemma ShapeWith(p: Picker, i: nat, prog: Prog)
    requires Shape(p) && i < p.numPieces && ProgInv(prog) && prog.length == LengthOf(p, i)
    ensures Shape(p.(inProgress := p.inProgress[i := prog]))
  {
  }

  lemma ShapeAvailability(p: Picker, counts: seq<nat>)
    requires Shape(p) && |counts| == p.numPieces && forall i :: 0 <= i < |counts| ==> counts[i] <= U16_MAX
    ensures Shape(p.(availability := counts))
  {
    hide ProgInv, PickerPieceLength, DivCeil;
  }

  lemma ShapeAsk(p: Picker, i: nat, b: nat)
    requires Shape(p) && i in p.inProgress && Free(p.inProgress[i], b)
    ensures Shape(p.(inProgress := p.inProgress[i := Ask(p.inProgress[i], b)]))
  {
    hide PickerPieceLength, DivCeil, Ask;
    AskInv(p.inProgress[i], b);
    AskLength(p.inProgress[i], b);
    hide ProgInv;
  }

  lemma ShapeRemove(p: Picker, i: nat)
    requires Shape(p)
    ensures Shape(p.(inProgress := p.inProgress - {i}))
  {
    hide PickerPieceLength, DivCeil, ProgInv;
  }

  lemma ShapeStart(p: Picker, i: nat)
    requires Shape(p) && i < p.numPieces
    ensures LengthOf(p, i) > 0 && Shape(p.(inProgress := p.inProgress[i := NewProg(LengthOf(p, i))]))
    ensures HasFree(NewProg(LengthOf(p, i)))
  {
    LengthPositive(p, i);
    NewProgInv(LengthOf(p, i));
    hide PickerPieceLength, DivCeil, ProgInv, NewProg;
    NewProgLength(LengthOf(p, i));
  }

  lemma NewProgLength(length: nat)
    ensures NewProg(length).length == length
  {
  }

  lemma ShapeHave(p: Picker, i: nat)
    requires Shape(p)
    ensures Shape(CountVerified(p, i))
  {
    hide PickerPieceLength, DivCeil, ProgInv;
  }

  lemma AskLength(p: Prog, b: nat)
    requires b < |p.asked|
    ensures Ask(p, b).length == p.length
  {
  }

  lemma ShapeMode(p: Picker, mode: Mode)
    requires Shape(p)
    ensures Shape(p.(mode := mode))
  {
    hide ProgInv, PickerPieceLength, DivCeil;
  }

  lemma AskInv(prog: Prog, b: nat)
    requires ProgInv(prog) && Free(prog, b)
    ensures ProgInv(Ask(prog, b)) && !AllReceived(Ask(prog, b))
  {
  }

  lemma PickKeepsInv(p: Picker, peer: set<nat>, i: nat)
    requires Inv(p) && LegalPick(p, peer, Some(i))
    ensures Pickable(p, i) && Inv(AfterPick(p, i))
    ensures AfterPick(p, i).have == p.have && AfterPick(p, i).availability == p.availability
  {
    LegalIsPickable(p, peer, i);
    PickOfMissing(p, peer, i);
    LengthPositive(p, i);
    ProgOfInv(p, i);
    var prog := ProgOf(p, i);
    LeastFreeFree(prog);
    var b := LeastFree(prog, 0).value;
    AskInv(prog, b);
    AskLength(prog, b);
    hide Ask, LeastFree, AllReceived, ProgInv, LegalPick, Shape, ProgOf, HasFree;
    ShapeWith(p, i, Ask(prog, b));
    ShapeMode(p.(inProgress := p.inProgress[i := Ask(prog, b)]), Endgame);
  }

  lemma ProgOfInv(p: Picker, i: nat)
    requires Inv(p) && i < p.numPieces && p.pieceLength > 0
    ensures ProgInv(ProgOf(p, i)) && ProgOf(p, i).length == LengthOf(p, i)
  {
    LengthPositive(p, i);
    NewProgInv(LengthOf(p, i));
    NewProgLength(LengthOf(p, i));
    hide NewProg, ProgInv, AllReceived, PickerPieceLength;
  }

  lemma LeastFreeFree(p: Prog)
    requires |p.received| == |p.asked| && HasFree(p)
    ensures Free(p, LeastFree(p, 0).value)
  {
  }

  lemma PickParams(p: Picker, i: nat)
    requires p.pieceLength > 0 && Pickable(p, i)
    ensures var q := AfterPick(p, i);
      q.numPieces == p.numPieces && q.pieceLength == p.pieceLength && q.total == p.total
  {
    hide LeastFree, Ask;
  }

  /** What a pick does to the pieces in progress. */
  lemma PickedPieces(p: Picker, peer: set<nat>, i: nat)
    requires Inv(p) && LegalPick(p, peer, Some(i))
    ensures p.pieceLength > 0 && Pickable(p, i) && LeastFree(ProgOf(p, i), 0).Some?
    ensures var least := LeastFree(ProgOf(p, i), 0).value;
      && Free(ProgOf(p, i), least)
      && AfterPick(p, i).inProgress == p.inProgress[i := Ask(ProgOf(p, i), least)]
      && |ProgOf(p, i).received| == |ProgOf(p, i).asked| == NumBlocks(LengthOf(p, i))
    ensures var q := AfterPick(p, i);
      && q.numPieces == p.numPieces && q.pieceLength == p.pieceLength && q.total == p.total && q.have == p.have
    ensures ProgInv(ProgOf(p, i))
  {
    PickOfMissing(p, peer, i);
    LegalIsPickable(p, peer, i);
    PickParams(p, i);
    ProgOfInv(p, i);
    LeastFreeFree(ProgOf(p, i));
    hide Inv, LegalPick, Ask, LeastFree, NewProg, Shape, PickerPieceLength;
  }

  lemma BlockKeepsInv(p: Picker, piece: nat, offset: nat, data: Bytes)
    requires Inv(p)
    ensures var (q, r) := BlockReceived(p, piece, offset, data);
      && Inv(q) && q.have == p.have && q.availability == p.availability
      && (r.PieceComplete? ==> piece < p.numPieces && piece !in p.have && |r.data| == LengthOf(p, piece))
  {
    hide PickerPieceLength, DivCeil;
    var (q, r) := BlockReceived(p, piece, offset, data);
    if r != Duplicate {
      var after := ReceiveBlock(p.inProgress[piece], offset, data);
      assert ProgInv(after);
    }
  }

  lemma VerifiedKeepsInv(p: Picker, piece: nat)
    requires Inv(p) && piece < p.numPieces && piece !in p.have
    ensures Inv(MarkVerified(p, piece))
    ensures MarkVerified(p, piece).have == p.have + {piece}
  {
    hide ProgInv, AllReceived, PickerPieceLength, Shape, Matched;
    ShapeRemove(p, piece);
    ShapeHave(PieceFailed(p, piece), piece);
    ShapeMode(CountVerified(PieceFailed(p, piece), piece), Endgame);
    assert |p.have + {piece}| == |p.have| + 1;
  }

  lemma FailedKeepsInv(p: Picker, piece: nat)
    requires Inv(p)
    ensures Inv(PieceFailed(p, piece))
  {
  }

  lemma UnassignKeepsInv(p: Picker, piece: nat, offset: nat)
    requires Inv(p)
    ensures Inv(UnassignBlock(p, piece, offset))
  {
    if piece in p.inProgress {
      var prog := p.inProgress[piece];
      var after := Unask(prog, offset / BLOCK_SIZE);
      assert ProgInv(after) && after.received == prog.received;
    }
  }

  lemma AvailabilityKeepsInv(p: Picker, peer: set<nat>, piece: nat)
    requires Inv(p)
    ensures Inv(PeerHasBitfield(p, peer)) && Inv(PeerHasPiece(p, piece)) && Inv(PeerDisconnected(p, peer))
  {
    hide PickerPieceLength, DivCeil, ProgInv, AllReceived;
  }

  lemma NewPickerInv(n: nat, pieceLength: nat, total: nat)
    requires Tiled(n, pieceLength, total)
    ensures Inv(NewPicker(n, pieceLength, total))
  {
  }

  // ---------------------------------------------------------------- endgame

  /** A block still to be received, of a piece still missing. */
  ghost predicate IsMissingBlock(p: Picker, r: BlockRequest)
    requires Shape(p)
  {
    && r.piece in Missing(p)
    && r.offset % BLOCK_SIZE == 0
    && r.offset / BLOCK_SIZE < NumBlocks(LengthOf(p, r.piece))
    && r.length == BlockLength(LengthOf(p, r.piece), r.offset / BLOCK_SIZE)
    && (r.piece in p.inProgress ==> !p.inProgress[r.piece].received[r.offset / BLOCK_SIZE])
  }

  /** Endgame is entered exactly when every missing piece is in progress, and is never left. */
  lemma EndgameEntry(p: Picker)
    requires Inv(p)
    ensures p.mode != Endgame ==>
      (CheckMode(p).mode == Endgame <==> Missing(p) != {} && p.inProgress.Keys == Missing(p))
    ensures p.mode == Endgame ==> CheckMode(p).mode == Endgame
  {
    MissingCount(p);
    InProgressIsMissing(p);
  }

  /** A peer is sent exactly the missing blocks of the pieces in progress that it has. */
  lemma EndgameAsks(p: Picker, peer: set<nat>, r: BlockRequest)
    requires Inv(p)
    ensures IsEndgameRequest(p, peer, r) <==> IsMissingBlock(p, r) && r.piece in p.inProgress && r.piece in peer
  {
    hide AllReceived, BlockLength;
    if r.piece in p.inProgress {
      InProgressIsMissing(p);
      assert ProgInv(p.inProgress[r.piece]);
    }
  }

  /** The requests sent to a peer with every piece are all the missing blocks iff all missing pieces are in progress. */
  lemma EndgameIsEverything(p: Picker, peer: set<nat>)
    requires Inv(p) && forall i :: 0 <= i < p.numPieces ==> i in peer
    ensures (forall r :: IsEndgameRequest(p, peer, r) <==> IsMissingBlock(p, r))
       <==> p.inProgress.Keys == Missing(p)
  {
    InProgressIsMissing(p);
    if p.inProgress.Keys == Missing(p) {
      forall r
        ensures IsEndgameRequest(p, peer, r) <==> IsMissingBlock(p, r)
      {
        assert r.piece in p.inProgress <==> r.piece in Missing(p);
      }
    } else {
      var i :| i in Missing(p) && i !in p.inProgress;
      LengthPositive(p, i);
      var r := BlockRequest(i, 0, BlockLength(LengthOf(p, i), 0));
      assert IsMissingBlock(p, r) && !IsEndgameRequest(p, peer, r);
    }
  }
}
