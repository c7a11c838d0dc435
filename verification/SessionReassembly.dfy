/** Sessions drive the picker: what is proved of picker runs holds in every session whose peers send whole blocks. */
module SessionReassembly {
  import opened ByteStrings
  import opened Wrappers
  import opened Address
  import opened InfoLengths
  import opened PickerSpec
  import opened PickerLaws
  import opened SessionSpec
  import opened SessionLaws
  import PR = PickerRuns

  /** Blocks that come for a piece in progress are whole: at a block boundary, and of that block's length. */
  ghost predicate WholeBlock(p: Picker, e: Event) {
    e.BlockArrived? && e.piece in p.inProgress ==>
      e.offset % BLOCK_SIZE == 0 && WellFormed(p.inProgress[e.piece].length, Arrival(e.offset / BLOCK_SIZE, e.data))
  }

  ghost predicate WholeBlocks(tor: Torrent, s: Session, acts: seq<Act>)
    requires Matched(s.picker)
    decreases |acts|
  {
    acts == []
    || (WholeBlocks(tor, s, acts[..|acts| - 1])
        && WholeBlock(Run(tor, s, acts[..|acts| - 1]).picker, acts[|acts| - 1].event))
  }

  // ------------------------------------------------------ what came for each piece

  type Arrivals = map<nat, seq<Arrival>>

  /** An event's block is added to what came for its piece, until the piece is complete. */
  function Noted(s: Session, e: Event, h: Arrivals): Arrivals
    requires Matched(s.picker)
  {
    if e.BlockArrived? && e.piece in s.picker.inProgress && e.piece in h then
      if BlockReceived(s.picker, e.piece, e.offset, e.data).1.PieceComplete? then h - {e.piece}
      else h[e.piece := h[e.piece] + [Arrival(e.offset / BLOCK_SIZE, e.data)]]
    else h
  }

  /** Pieces newly started have nothing yet. */
  function Started(p: Picker, h: Arrivals): Arrivals {
    map i | i in p.inProgress :: if i in h then h[i] else []
  }

  /** The blocks that came in the run for each piece in progress, since it was last started. */
  ghost function Came(tor: Torrent, s: Session, acts: seq<Act>): Arrivals
    requires Matched(s.picker)
    decreases |acts|
  {
    if acts == [] then map[]
    else
      var front := acts[..|acts| - 1];
      Started(Run(tor, s, acts).picker,
              Noted(Run(tor, s, front), acts[|acts| - 1].event, Came(tor, s, front)))
  }

  // ----------------------------------------------------- sessions as picker calls

  /** The picker calls `ops`, made in the trace t, lead to the trace u. */
  ghost predicate Leads(t: PR.Trace, ops: seq<PR.Op>, u: PR.Trace)
    requires Matched(t.picker)
  {
    PR.LegalRun(t, ops) && PR.Run(t, ops) == u
  }

  lemma OneCall(t: PR.Trace, ops: seq<PR.Op>, u: PR.Trace, op: PR.Op)
    requires Matched(t.picker) && Matched(u.picker) && Leads(t, ops, u) && PR.LegalOp(u.picker, op)
    ensures Leads(t, ops + [op], PR.Apply(u, op))
  {
    hide Matched, PR.LegalOp, PR.Apply;
    assert (ops + [op])[..|ops|] == ops;
  }

  lemma {:induction false} UnassignCalls(t: PR.Trace, ops: seq<PR.Op>, u: PR.Trace, blocks: seq<BlockRequest>)
    returns (r: seq<PR.Op>)
    requires Matched(t.picker) && Matched(u.picker) && Leads(t, ops, u)
    ensures Leads(t, r, u.(picker := Unassign(u.picker, blocks)))
    decreases |blocks|
  {
    hide Matched, Leads;
    r := ops;
    if blocks != [] {
      var op := PR.Release(blocks[0].piece, blocks[0].offset);
      OneCall(t, ops, u, op);
      r := UnassignCalls(t, ops + [op], PR.Apply(u, op), blocks[1..]);
    }
  }

  lemma {:induction false} PickCalls(t: PR.Trace, ops: seq<PR.Op>, tor: Torrent, s: Session, h: Arrivals,
                                     addr: SocketAddr, left: nat, picks: seq<Pick>) returns (r: seq<PR.Op>)
    requires Matched(t.picker) && Matched(s.picker) && Leads(t, ops, PR.Trace(s.picker, h))
    requires Sound(tor, s.picker) && LegalPicks(s, addr, left, picks) && h.Keys == s.picker.inProgress.Keys
    ensures var q := TakePicks(s, addr, picks).picker;
      Leads(t, r, PR.Trace(q, Started(q, h))) && h.Keys <= q.inProgress.Keys == Started(q, h).Keys
    decreases |picks|
  {
    hide Matched, Leads, Sound, Shape, LegalPick, TakePick, Started;
    r := ops;
    if picks == [] {
      StartedSame(s.picker, h);
    } else {
      PickCall(t, ops, tor, s, h, addr, picks[0]);
      r := ops + [PR.Pick(s.bitfields[addr], picks[0].piece)];
      if picks[0].sent {
        var next := TakePick(s, addr, picks[0]);
        r := PickCalls(t, r, tor, next, Started(next.picker, h), addr, left - 1, picks[1..]);
        StartedTwice(next.picker, TakePicks(s, addr, picks).picker, h);
      } else {
        assert picks[1..] == [];
      }
    }
  }

  lemma PickCall(t: PR.Trace, ops: seq<PR.Op>, tor: Torrent, s: Session, h: Arrivals, addr: SocketAddr, pick: Pick)
    requires Matched(t.picker) && Matched(s.picker) && Leads(t, ops, PR.Trace(s.picker, h))
    requires Sound(tor, s.picker) && Shape(s.picker) && h.Keys == s.picker.inProgress.Keys
    requires addr in s.bitfields && LegalPick(s.picker, s.bitfields[addr], Some(pick.piece))
    ensures var next := TakePick(s, addr, pick);
      && Leads(t, ops + [PR.Pick(s.bitfields[addr], pick.piece)], PR.Trace(next.picker, Started(next.picker, h)))
      && Sound(tor, next.picker) && next.bitfields == s.bitfields
      && h.Keys <= next.picker.inProgress.Keys == Started(next.picker, h).Keys
  {
    hide Matched, Leads, Inv, Shape, LegalPick, AfterPick, Pickable, Requested;
    var i := pick.piece;
    PickOfMissing(s.picker, s.bitfields[addr], i);
    PickedPieces(s.picker, s.bitfields[addr], i);
    PickKeeps(tor, s, addr, pick);
    OneCall(t, ops, PR.Trace(s.picker, h), PR.Pick(s.bitfields[addr], i));
    StartedOne(s.picker, TakePick(s, addr, pick).picker, i, h);
  }

  lemma StartedSame(p: Picker, h: Arrivals)
    requires h.Keys == p.inProgress.Keys
    ensures Started(p, h) == h
  {
  }

  lemma StartedTwice(p: Picker, q: Picker, h: Arrivals)
    requires h.Keys <= p.inProgress.Keys <= q.inProgress.Keys
    ensures Started(q, Started(p, h)) == Started(q, h)
  {
  }

  lemma StartedOne(p: Picker, q: Picker, i: nat, h: Arrivals)
    requires h.Keys == p.inProgress.Keys && q.inProgress.Keys == p.inProgress.Keys + {i}
    ensures Started(q, h) == if i in p.inProgress then h else h[i := []]
  {
  }

  lemma {:induction false} FillCalls(t: PR.Trace, ops: seq<PR.Op>, tor: Torrent, s: Session, h: Arrivals,
                                     fills: seq<Fill>) returns (r: seq<PR.Op>)
    requires Matched(t.picker) && Matched(s.picker) && Leads(t, ops, PR.Trace(s.picker, h))
    requires Sound(tor, s.picker) && LegalFills(s, fills) && h.Keys == s.picker.inProgress.Keys
    ensures var q := TakeFills(s, fills).picker;
      Leads(t, r, PR.Trace(q, Started(q, h))) && h.Keys <= q.inProgress.Keys == Started(q, h).Keys
    decreases |fills|
  {
    hide Matched, Leads, Sound, LegalPicks, Started;
    r := ops;
    if fills == [] {
      StartedSame(s.picker, h);
    } else {
      var f := fills[0];
      FillKeeps(tor, s, f);
      var next := TakePicks(s, f.addr, f.picks);
      var h' := Started(next.picker, h);
      if f.picks != [] {
        hide TakePicks;
        r := PickCalls(t, ops, tor, s, h, f.addr, f.depth - s.peers[f.addr].outstanding, f.picks);
      } else {
        StartedSame(s.picker, h);
      }
      r := FillCalls(t, r, tor, next, h', fills[1..]);
      StartedTwice(next.picker, TakeFills(s, fills).picker, h);
    }
  }

  /** A block, and then the verdict on the piece it completes. */
  lemma BlockCalls(t: PR.Trace, ops: seq<PR.Op>, tor: Torrent, s: Session, h: Arrivals, e: Event) returns (r: seq<PR.Op>)
    requires Matched(t.picker) && Matched(s.picker) && Leads(t, ops, PR.Trace(s.picker, h)) && Sound(tor, s.picker)
    requires e.BlockArrived? && WholeBlock(s.picker, e) && h.Keys == s.picker.inProgress.Keys
    ensures var q := AcceptBlock(tor, s, e.piece, e.offset, e.data).picker;
      Leads(t, r, PR.Trace(q, Noted(s, e, h))) && Noted(s, e, h).Keys == q.inProgress.Keys
  {
    hide Matched, Leads, Sound, Inv, BlockReceived, WellFormed, CheckMode;
    var piece := e.piece;
    var (p, result) := BlockReceived(s.picker, piece, e.offset, e.data);
    PR.OtherPieces(s.picker, piece, e.offset, e.data);
    r := ops;
    if piece in s.picker.inProgress {
      var u := PR.Trace(s.picker, h);
      var op := PR.Receive(piece, Arrival(e.offset / BLOCK_SIZE, e.data));
      WholeOffset(e.offset);
      OneCall(t, ops, u, op);
      r := ops + [op];
      if result.PieceComplete? {
        BlockSound(tor, s.picker, piece, e.offset, e.data);
        SoundParams(tor, p);
        var verdict := if Verifies(tor, piece, result.data) then PR.Verify(piece) else PR.Fail(piece);
        OneCall(t, r, PR.Trace(p, h - {piece}), verdict);
        r := r + [verdict];
        Forgotten(p, h, piece);
      }
    }
  }

  lemma Forgotten(p: Picker, h: Arrivals, piece: nat)
    requires p.inProgress.Keys == h.Keys - {piece}
    ensures (h - {piece}) - {piece} == h - {piece}
    ensures MarkVerified(p, piece).inProgress.Keys == PieceFailed(p, piece).inProgress.Keys == (h - {piece}).Keys
  {
  }

  lemma WholeOffset(offset: nat)
    requires offset % BLOCK_SIZE == 0
    ensures offset / BLOCK_SIZE * BLOCK_SIZE == offset
  {
  }

  lemma SoundParams(tor: Torrent, p: Picker)
    requires Sound(tor, p)
    ensures p.numPieces == tor.n
  {
  }

  lemma {:induction false} UnassignKeys(p: Picker, blocks: seq<BlockRequest>)
    requires Matched(p)
    ensures Unassign(p, blocks).inProgress.Keys == p.inProgress.Keys
    decreases |blocks|
  {
    hide Matched, Unask;
    if blocks != [] {
      UnassignKeys(UnassignBlock(p, blocks[0].piece, blocks[0].offset), blocks[1..]);
    }
  }

  lemma EventCalls(t: PR.Trace, ops: seq<PR.Op>, tor: Torrent, s: Session, h: Arrivals, e: Event) returns (r: seq<PR.Op>)
    requires Matched(t.picker) && Matched(s.picker) && Leads(t, ops, PR.Trace(s.picker, h)) && Sound(tor, s.picker)
    requires WholeBlock(s.picker, e) && h.Keys == s.picker.inProgress.Keys
    ensures var q := Base(tor, s, e).picker;
      Leads(t, r, PR.Trace(q, Noted(s, e, h))) && Noted(s, e, h).Keys == q.inProgress.Keys
  {
    hide Matched, Leads, Sound, AcceptBlock, BeforeBlock, DiskAfter, Unassign, WellFormed, CountedUp, CountedDown,
      BlockReceived;
    r := ops;
    var u := PR.Trace(s.picker, h);
    if e.BlockArrived? {
      r := BlockCalls(t, ops, tor, BeforeBlock(s, e.addr, e.piece, e.offset), h, e);
    } else if e.Choked? || e.Disconnected? {
      r := ReleaseCalls(t, ops, s, h, e.addr);
      if e.Disconnected? && e.addr in s.bitfields {
        OneCall(t, r, PR.Trace(Release(s, e.addr).picker, h), PR.Lose(s.bitfields[e.addr]));
        r := r + [PR.Lose(s.bitfields[e.addr])];
      }
    } else if e.BitfieldReceived? || e.HaveAll? || e.Have? {
      var op := if e.Have? then PR.GainOne(e.piece)
                else PR.Gain(if e.HaveAll? then Range(tor.n) else Announced(tor, e.bytes));
      OneCall(t, ops, u, op);
      r := ops + [op];
    }
  }

  lemma ReleaseCalls(t: PR.Trace, ops: seq<PR.Op>, s: Session, h: Arrivals, addr: SocketAddr) returns (r: seq<PR.Op>)
    requires Matched(t.picker) && Matched(s.picker) && Leads(t, ops, PR.Trace(s.picker, h))
    ensures Leads(t, r, PR.Trace(Release(s, addr).picker, h)) && Release(s, addr).bitfields == s.bitfields
    ensures Release(s, addr).picker.inProgress.Keys == s.picker.inProgress.Keys
  {
    hide Matched, Leads, Unassign;
    r := ops;
    if addr in s.pending {
      r := UnassignCalls(t, ops, PR.Trace(s.picker, h), s.pending[addr]);
      UnassignKeys(s.picker, s.pending[addr]);
    }
  }

  /** Every session run is, to its picker, a legal run of picker calls into which the same blocks come. */
  lemma {:induction false} SessionIsPickerRun(tor: Torrent, p: Picker, disk: Bytes, acts: seq<Act>)
    returns (ops: seq<PR.Op>)
    requires Starts(tor, p, disk) && Matched(p) && p.inProgress == map[]
    requires LegalRun(tor, Opened(p, disk), acts) && WholeBlocks(tor, Opened(p, disk), acts)
    ensures var q, h := Run(tor, Opened(p, disk), acts).picker, Came(tor, Opened(p, disk), acts);
      Leads(PR.Trace(p, map[]), ops, PR.Trace(q, h)) && h.Keys == q.inProgress.Keys
    decreases |acts|
  {
    hide Matched, Starts, Sound, Books, DiskAgrees, Pipelined, Base, Possible, RefillsFor, LegalFills, TakeFills,
      WholeBlock, Noted;
    if acts == [] {
      ops := [];
    } else {
      hide Leads;
      var front, act := acts[..|acts| - 1], acts[|acts| - 1];
      LegalLast(tor, Opened(p, disk), acts);
      RunKeepsSafe(tor, p, disk, front);
      ops := SessionIsPickerRun(tor, p, disk, front);
      var s, h := Run(tor, Opened(p, disk), front), Came(tor, Opened(p, disk), front);
      EventKeeps(tor, s, act.event);
      ops := EventCalls(PR.Trace(p, map[]), ops, tor, s, h, act.event);
      ops := FillCalls(PR.Trace(p, map[]), ops, tor, Base(tor, s, act.event), Noted(s, act.event, h), act.fills);
    }
  }

  /**
   * In every session whose peers send whole blocks: the next block of a piece in progress is a duplicate
   * exactly when a copy of it came since the piece was last started, and completes the piece exactly when
   * it is the last distinct one; what is then checked is the first copies in offset order.
   */
  lemma SessionReassembles(tor: Torrent, p: Picker, disk: Bytes, acts: seq<Act>, i: nat, a: Arrival)
    requires Starts(tor, p, disk) && Matched(p) && p.inProgress == map[]
    requires LegalRun(tor, Opened(p, disk), acts) && WholeBlocks(tor, Opened(p, disk), acts)
    requires var q := Run(tor, Opened(p, disk), acts).picker;
      i in q.inProgress && WellFormed(q.inProgress[i].length, a)
    ensures i in Came(tor, Opened(p, disk), acts)
    ensures var q, came := Run(tor, Opened(p, disk), acts).picker, Came(tor, Opened(p, disk), acts)[i];
      var length := q.inProgress[i].length;
      var r := BlockReceived(q, i, a.block * BLOCK_SIZE, a.data).1;
      && (r == Duplicate <==> FirstCopy(came, a.block).Some?)
      && (r.PieceComplete? <==> r != Duplicate && Everything(length, came + [a]))
      && (r.PieceComplete? ==> r.data == InOrder(came + [a], NumBlocks(length)))
  {
    hide Matched, LegalRun, WholeBlocks, Run, Came, WellFormed, Inv, Shape, BlockReceived, FirstCopy, Everything,
      InOrder, PR.LegalRun, PR.Run;
    var ops := SessionIsPickerRun(tor, p, disk, acts);
    PR.CompletesAtLastBlock(p, ops, i, a);
  }
}
