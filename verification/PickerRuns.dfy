/** Reassembly over whole runs of the picker: what a piece in progress holds, and when it is complete. */
module PickerRuns {
  import opened ByteStrings
  import opened Wrappers
  import opened InfoLengths
  import opened PickerSpec
  import opened PickerLaws

  /** One call on the picker. */
  datatype Op =
    | Pick(peer: set<nat>, piece: nat)
    | Receive(piece: nat, arrival: Arrival)
    | Release(piece: nat, offset: nat)
    | Fail(piece: nat)
    | Verify(piece: nat)
    | Gain(peer: set<nat>)
    | GainOne(piece: nat)
    | Lose(peer: set<nat>)

  /** A picker, and the blocks that came for each piece in progress since it was last started. */
  datatype Trace = Trace(picker: Picker, arrivals: map<nat, seq<Arrival>>)

  ghost function Apply(t: Trace, op: Op): (r: Trace)
    requires Matched(t.picker)
    ensures Matched(r.picker)
  {
    var p := t.picker;
    match op
    case Pick(_, i) =>
      if p.pieceLength > 0 && Pickable(p, i) then
        Trace(AfterPick(p, i), if i in p.inProgress then t.arrivals else t.arrivals[i := []])
      else t
    case Receive(i, a) =>
      var (q, result) := BlockReceived(p, i, a.block * BLOCK_SIZE, a.data);
      if i !in p.inProgress || i !in t.arrivals then t.(picker := q)
      else if result.PieceComplete? then Trace(q, t.arrivals - {i})
      else Trace(q, t.arrivals[i := t.arrivals[i] + [a]])
    case Release(i, offset) => t.(picker := UnassignBlock(p, i, offset))
    case Fail(i) => Trace(PieceFailed(p, i), t.arrivals - {i})
    case Verify(i) => Trace(MarkVerified(p, i), t.arrivals - {i})
    case Gain(peer) => t.(picker := PeerHasBitfield(p, peer))
    case GainOne(i) => t.(picker := PeerHasPiece(p, i))
    case Lose(peer) => t.(picker := PeerDisconnected(p, peer))
  }

  /** Picks are the picker's own; blocks are whole blocks of their piece; only missing pieces are verified. */
  ghost predicate LegalOp(p: Picker, op: Op) {
    match op
    case Pick(peer, i) => Shape(p) && LegalPick(p, peer, Some(i))
    case Receive(i, a) => i in p.inProgress ==> WellFormed(p.inProgress[i].length, a)
    case Verify(i) => i < p.numPieces && i !in p.have
    case _ => true
  }

  // -------------------------------------------------------------- invariant

  /** The piece holds what these blocks, arriving in this order, put into a new piece. */
  ghost predicate Filled(prog: Prog, arrivals: seq<Arrival>) {
    && |NewProg(prog.length).received| == |NewProg(prog.length).asked|
    && (forall j :: 0 <= j < |arrivals| ==> WellFormed(prog.length, arrivals[j]))
    && SameContents(prog, Arrive(NewProg(prog.length), arrivals))
  }

  /** Every piece in progress holds the blocks that came for it since it was last started. */
  ghost predicate Faithful(t: Trace) {
    && Inv(t.picker)
    && t.arrivals.Keys == t.picker.inProgress.Keys
    && forall i :: i in t.picker.inProgress ==> Filled(t.picker.inProgress[i], t.arrivals[i])
  }

  lemma NewIsFilled(length: nat)
    ensures Filled(NewProg(length), [])
  {
  }

  lemma AskedIsFilled(prog: Prog, i: nat, arrivals: seq<Arrival>)
    requires ProgInv(prog) && Filled(prog, arrivals)
    ensures Free(prog, i) ==> Filled(Ask(prog, i), arrivals)
    ensures Filled(Unask(prog, i), arrivals)
  {
    hide NewProg, Arrive, WellFormed;
    AskingKeepsContents(prog, i);
  }

  /** A change to one piece alone. */
  lemma OneChanged(t: Trace, q: Picker, i: nat, prog: Prog, arrivals: seq<Arrival>)
    requires Faithful(t) && Inv(q) && q.inProgress == t.picker.inProgress[i := prog] && Filled(prog, arrivals)
    ensures Faithful(Trace(q, t.arrivals[i := arrivals]))
  {
    hide Inv, Filled;
  }

  lemma FilledAt(t: Trace, i: nat)
    requires Faithful(t) && i in t.picker.inProgress
    ensures i in t.arrivals && Filled(t.picker.inProgress[i], t.arrivals[i])
    ensures t.arrivals[i := t.arrivals[i]] == t.arrivals
  {
    hide Inv, Filled;
  }

  lemma PickFaithful(t: Trace, peer: set<nat>, i: nat)
    requires Faithful(t) && Matched(t.picker) && Shape(t.picker) && LegalPick(t.picker, peer, Some(i))
    ensures Faithful(Apply(t, Pick(peer, i)))
  {
    hide Inv, Shape, Matched, LegalPick, Filled, NewProg, Ask, LeastFree, ProgInv, LengthOf, Faithful, AfterPick, Pickable;
    var p := t.picker;
    FaithfulInv(t);
    PickKeepsInv(p, peer, i);
    PickedPieces(p, peer, i);
    var prog := ProgOf(p, i);
    var b := LeastFree(prog, 0).value;
    var arrivals := if i in p.inProgress then t.arrivals[i] else [];
    if i in p.inProgress {
      FilledAt(t, i);
    } else {
      NewIsFilled(LengthOf(p, i));
    }
    AskedIsFilled(prog, b, arrivals);
    OneChanged(t, AfterPick(p, i), i, Ask(prog, b), arrivals);
  }

  lemma FaithfulInv(t: Trace)
    requires Faithful(t)
    ensures Inv(t.picker) && t.arrivals.Keys == t.picker.inProgress.Keys
  {
    hide Inv, Filled;
  }

  lemma ReceiveFaithful(t: Trace, i: nat, a: Arrival)
    requires Faithful(t) && Matched(t.picker) && LegalOp(t.picker, Receive(i, a))
    ensures Faithful(Apply(t, Receive(i, a)))
  {
    hide Inv, Matched, NewProg, Arrive, WellFormed, BlockReceived, FirstCopy, Everything, InOrder, Faithful, SameContents;
    var p := t.picker;
    FaithfulInv(t);
    BlockKeepsInv(p, i, a.block * BLOCK_SIZE, a.data);
    OtherPieces(p, i, a.block * BLOCK_SIZE, a.data);
    if i in p.inProgress {
      FilledAt(t, i);
      BlockCompletes(p, i, t.arrivals[i], a);
      var (q, r) := BlockReceived(p, i, a.block * BLOCK_SIZE, a.data);
      if r.PieceComplete? {
        OneGone(t, q, i);
      } else {
        FilledMore(p.inProgress[i], q.inProgress[i], t.arrivals[i], a);
        assert q.inProgress == p.inProgress[i := q.inProgress[i]];
        OneChanged(t, q, i, q.inProgress[i], t.arrivals[i] + [a]);
      }
    }
  }

  lemma FilledMore(was: Prog, now: Prog, arrivals: seq<Arrival>, a: Arrival)
    requires Filled(was, arrivals) && WellFormed(was.length, a) && now.length == was.length
    requires SameContents(now, Arrive(NewProg(was.length), arrivals + [a]))
    ensures Filled(now, arrivals + [a])
  {
    hide WellFormed, Arrive, NewProg;
  }

  lemma OneGone(t: Trace, q: Picker, i: nat)
    requires Faithful(t) && Inv(q) && q.inProgress == t.picker.inProgress - {i}
    ensures Faithful(Trace(q, t.arrivals - {i}))
  {
    hide Inv, Filled;
  }

  /** A block touches no piece but its own. */
  lemma OtherPieces(p: Picker, i: nat, offset: nat, data: Bytes)
    requires Matched(p)
    ensures var (q, r) := BlockReceived(p, i, offset, data);
      && q.inProgress.Keys == (if r.PieceComplete? then p.inProgress.Keys - {i} else p.inProgress.Keys)
      && (forall j :: j in q.inProgress && j != i ==> q.inProgress[j] == p.inProgress[j])
      && (i in q.inProgress ==> q.inProgress[i].length == p.inProgress[i].length)
      && (r.PieceComplete? ==> q.inProgress == p.inProgress - {i})
      && (i !in p.inProgress ==> q == p && r == Duplicate)
  {
    hide AllReceived;
  }

  lemma ReleaseFaithful(t: Trace, i: nat, offset: nat)
    requires Faithful(t) && Matched(t.picker)
    ensures Faithful(Apply(t, Release(i, offset)))
  {
    UnassignKeepsInv(t.picker, i, offset);
    if i in t.picker.inProgress {
      ProgressIs(t.picker, i);
      AskedIsFilled(t.picker.inProgress[i], offset / BLOCK_SIZE, t.arrivals[i]);
    }
    hide Inv, Matched, Filled, Unask;
  }

  /** A piece that is given up, or verified, is forgotten with all that came for it. */
  lemma RemoveFaithful(t: Trace, i: nat)
    requires Faithful(t) && Matched(t.picker)
    ensures Faithful(Apply(t, Fail(i)))
    ensures i < t.picker.numPieces && i !in t.picker.have ==> Faithful(Apply(t, Verify(i)))
  {
    FailedKeepsInv(t.picker, i);
    if i < t.picker.numPieces && i !in t.picker.have {
      VerifiedKeepsInv(t.picker, i);
    }
    hide Inv, Matched, Filled;
  }

  lemma CountsFaithful(t: Trace, peer: set<nat>, i: nat)
    requires Faithful(t) && Matched(t.picker)
    ensures Faithful(Apply(t, Gain(peer))) && Faithful(Apply(t, GainOne(i))) && Faithful(Apply(t, Lose(peer)))
  {
    AvailabilityKeepsInv(t.picker, peer, i);
    hide Inv, Matched, Filled, CountedUp, CountedDown;
  }

  lemma OpFaithful(t: Trace, op: Op)
    requires Faithful(t) && Matched(t.picker) && LegalOp(t.picker, op)
    ensures Faithful(Apply(t, op))
  {
    hide Faithful, Matched, Apply;
    match op
    case Pick(peer, i) => PickFaithful(t, peer, i);
    case Receive(i, a) => ReceiveFaithful(t, i, a);
    case Release(i, offset) => ReleaseFaithful(t, i, offset);
    case Fail(i) => RemoveFaithful(t, i);
    case Verify(i) => RemoveFaithful(t, i);
    case Gain(peer) => CountsFaithful(t, peer, 0);
    case GainOne(i) => CountsFaithful(t, {}, i);
    case Lose(peer) => CountsFaithful(t, peer, 0);
  }

  // ------------------------------------------------------------------- runs

  ghost function Run(t: Trace, ops: seq<Op>): (r: Trace)
    requires Matched(t.picker)
    ensures Matched(r.picker)
    decreases |ops|
  {
    if ops == [] then t else Apply(Run(t, ops[..|ops| - 1]), ops[|ops| - 1])
  }

  ghost predicate LegalRun(t: Trace, ops: seq<Op>)
    requires Matched(t.picker)
    decreases |ops|
  {
    ops == [] || (LegalRun(t, ops[..|ops| - 1]) && LegalOp(Run(t, ops[..|ops| - 1]).picker, ops[|ops| - 1]))
  }

  /** A picker with nothing in progress: fresh, or after pieces have been adopted from disk. */
  ghost predicate Idle(p: Picker) {
    Inv(p) && p.inProgress == map[]
  }

  lemma {:induction false} RunFaithful(p: Picker, ops: seq<Op>)
    requires Idle(p) && Matched(p) && LegalRun(Trace(p, map[]), ops)
    ensures Faithful(Run(Trace(p, map[]), ops))
    decreases |ops|
  {
    hide Matched, LegalOp, Inv;
    if ops != [] {
      hide Faithful;
      RunFaithful(p, ops[..|ops| - 1]);
      OpFaithful(Run(Trace(p, map[]), ops[..|ops| - 1]), ops[|ops| - 1]);
    }
  }

  /** In every run, a piece in progress holds the copies that came first since it was last started. */
  lemma HoldsFirstCopies(p: Picker, ops: seq<Op>, i: nat, b: nat)
    requires Idle(p) && Matched(p) && LegalRun(Trace(p, map[]), ops)
    requires var t := Run(Trace(p, map[]), ops); i in t.picker.inProgress && b < NumBlocks(t.picker.inProgress[i].length)
    ensures var t := Run(Trace(p, map[]), ops);
      i in t.arrivals && ProgInv(t.picker.inProgress[i])
      && Holds(t.picker.inProgress[i], b, FirstCopy(t.arrivals[i], b))
  {
    hide Matched, LegalRun, Run, Arrive, NewProg, WellFormed;
    RunFaithful(p, ops);
    var t := Run(Trace(p, map[]), ops);
    ProgressIs(t.picker, i);
    hide Inv;
    ArrivalsHold(t.picker.inProgress[i].length, t.arrivals[i], b);
  }

  /**
   * In every run, the next block of a piece in progress is a duplicate exactly when a copy came since the
   * piece was last started, and completes the piece exactly when it is the last distinct one; what is
   * then handed on is the first copies in offset order.
   */
  lemma CompletesAtLastBlock(p: Picker, ops: seq<Op>, i: nat, a: Arrival)
    requires Idle(p) && Matched(p) && LegalRun(Trace(p, map[]), ops)
    requires var q := Run(Trace(p, map[]), ops).picker;
      i in q.inProgress && WellFormed(q.inProgress[i].length, a)
    ensures var t := Run(Trace(p, map[]), ops);
      var length := t.picker.inProgress[i].length;
      var (q, r) := BlockReceived(t.picker, i, a.block * BLOCK_SIZE, a.data);
      && i in t.arrivals
      && (r == Duplicate <==> FirstCopy(t.arrivals[i], a.block).Some?)
      && (r.PieceComplete? <==> r != Duplicate && Everything(length, t.arrivals[i] + [a]))
      && (r.PieceComplete? ==> r.data == InOrder(t.arrivals[i] + [a], NumBlocks(length)))
  {
    hide Matched, LegalRun, Run, Arrive, NewProg, WellFormed, Inv, BlockReceived, FirstCopy, Everything, InOrder;
    RunFaithful(p, ops);
    var t := Run(Trace(p, map[]), ops);
    BlockCompletes(t.picker, i, t.arrivals[i], a);
  }
}
