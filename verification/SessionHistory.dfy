/** What a session knows of its peers is what happened to them: known, choking, announced, asked, and how often. */
module SessionHistory {
  import opened ByteStrings
  import opened Wrappers
  import opened Address
  import opened InfoLengths
  import opened PickerSpec
  import opened PickerLaws
  import opened SessionSpec
  import opened SessionLaws
  import AL = AvailabilityLaws
  import BF = Bitfield

  // ----------------------------------------------------------------- histories

  /** The last that was heard of dialing the peer or losing it is that it was dialed. */
  function IsKnown(acts: seq<Act>, a: SocketAddr): bool {
    if acts == [] then false
    else
      var e := acts[|acts| - 1].event;
      if e == Dialed(a) then true
      else if e == Disconnected(a) then false
      else IsKnown(acts[..|acts| - 1], a)
  }

  /** The last time the peer was dialed, choked us or unchoked us, it unchoked us. */
  function HasUnchoked(acts: seq<Act>, a: SocketAddr): bool {
    if acts == [] then false
    else
      var e := acts[|acts| - 1].event;
      if e == Unchoked(a) then true
      else if e == Choked(a) || e == Dialed(a) then false
      else HasUnchoked(acts[..|acts| - 1], a)
  }

  /** The peer's connection came up, or it sent a bitfield or its like, and it was not lost since. */
  function IsListed(acts: seq<Act>, a: SocketAddr): bool {
    if acts == [] then false
    else
      var e := acts[|acts| - 1].event;
      if e.Written? || e.addr != a then IsListed(acts[..|acts| - 1], a)
      else if e.Connected? || e.BitfieldReceived? || e.HaveAll? then true
      else if e.Disconnected? then false
      else IsListed(acts[..|acts| - 1], a)
  }

  /** The last the peer said of piece i, since it was connected or lost, is that it has it. */
  function HasAnnounced(acts: seq<Act>, a: SocketAddr, i: nat): bool {
    if acts == [] then false
    else
      var front, e := acts[..|acts| - 1], acts[|acts| - 1].event;
      if e.Written? || e.addr != a then HasAnnounced(front, a, i)
      else if e.Connected? || e.Disconnected? then false
      else if e.HaveAll? then true
      else if e.BitfieldReceived? then i / 8 < |e.bytes| && BF.TopBit(e.bytes[i / 8], i % 8)
      else if e.Have? && e.piece == i && IsListed(front, a) then true
      else HasAnnounced(front, a, i)
  }

  function CountSent(picks: seq<Pick>): nat {
    if picks == [] then 0 else (if picks[0].sent then 1 else 0) + CountSent(picks[1..])
  }

  /** How many requests went out to the peer. */
  function SentTo(fills: seq<Fill>, a: SocketAddr): nat {
    if fills == [] then 0
    else (if fills[0].addr == a then CountSent(fills[0].picks) else 0) + SentTo(fills[1..], a)
  }

  /** Requests that went out since the peer was last dialed or choked us, each block that came taking one off. */
  function StillOut(acts: seq<Act>, a: SocketAddr): nat {
    if acts == [] then 0
    else
      var before, act := StillOut(acts[..|acts| - 1], a), acts[|acts| - 1];
      var after := if act.event == Dialed(a) || act.event == Choked(a) then 0
                   else if act.event.BlockArrived? && act.event.addr == a && before > 0 then before - 1
                   else before;
      after + SentTo(act.fills, a)
  }

  // ------------------------------------------------------------------- counters

  /** Picks raise their own peer's counter by the requests that were sent, and change nothing else of the peers. */
  lemma {:induction false} PicksCount(tor: Torrent, s: Session, addr: SocketAddr, left: nat, picks: seq<Pick>)
    requires Sound(tor, s.picker) && Matched(s.picker) && LegalPicks(s, addr, left, picks) && addr in s.peers
    ensures var t := TakePicks(s, addr, picks);
      PeersKept(s, t) && forall a :: a in s.peers ==>
        t.peers[a].outstanding == s.peers[a].outstanding + (if a == addr then CountSent(picks) else 0)
    decreases |picks|
  {
    hide Sound, Inv, Shape, Matched, LegalPick, TakePick;
    if picks != [] {
      SoundIs(tor, s.picker);
      PickKeeps(tor, s, addr, picks[0]);
      var t := TakePick(s, addr, picks[0]);
      if picks[0].sent {
        PicksCount(tor, t, addr, left - 1, picks[1..]);
      } else {
        assert picks[1..] == [];
      }
    }
  }

  lemma FillCounts(tor: Torrent, s: Session, f: Fill)
    requires Sound(tor, s.picker) && Matched(s.picker) && LegalFill(s, f)
    ensures var t := TakePicks(s, f.addr, f.picks);
      PeersKept(s, t) && forall a :: a in s.peers ==>
        t.peers[a].outstanding == s.peers[a].outstanding + (if a == f.addr then CountSent(f.picks) else 0)
  {
    hide Sound, Inv, Shape, Matched, LegalPick, LegalPicks;
    if f.picks != [] {
      hide TakePicks;
      PicksCount(tor, s, f.addr, f.depth - s.peers[f.addr].outstanding, f.picks);
    }
  }

  lemma {:induction false} FillsCount(tor: Torrent, s: Session, fills: seq<Fill>)
    requires Sound(tor, s.picker) && Matched(s.picker) && LegalFills(s, fills)
    ensures var t := TakeFills(s, fills);
      PeersKept(s, t) && forall a :: a in s.peers ==>
        t.peers[a].outstanding == s.peers[a].outstanding + SentTo(fills, a)
    decreases |fills|
  {
    hide Sound, Inv, Shape, Matched, LegalFill, TakePicks;
    if fills != [] {
      FillKeeps(tor, s, fills[0]);
      FillCounts(tor, s, fills[0]);
      FillsCount(tor, TakePicks(s, fills[0].addr, fills[0].picks), fills[1..]);
    }
  }

  /** What an event does to what is known of a peer, pipelines aside. */
  lemma EventPeers(tor: Torrent, s: Session, e: Event, a: SocketAddr)
    requires Sound(tor, s.picker) && Matched(s.picker) && Possible(tor, s, e)
    ensures var t := Base(tor, s, e);
      && (a in t.peers <==> e == Dialed(a) || (a in s.peers && e != Disconnected(a)))
      && (a in t.peers ==>
            (t.peers[a].choking <==> e == Dialed(a) || e == Choked(a) || (e != Unchoked(a) && s.peers[a].choking)))
      && (a in t.peers ==>
            t.peers[a].outstanding == if e == Dialed(a) || e == Choked(a) then 0
              else if e.BlockArrived? && e.addr == a && s.peers[a].outstanding > 0 then s.peers[a].outstanding - 1
              else s.peers[a].outstanding)
  {
    hide Sound, Matched, AcceptBlock, Release, DiskAfter, Missing, Checked, Accepted;
    if e.BlockArrived? {
      AcceptKeeps(tor, BeforeBlock(s, e.addr, e.piece, e.offset), e.piece, e.offset, e.data);
    } else if e.Choked? || e.Disconnected? {
      ReleaseKeeps(tor, s, e.addr);
    }
  }

  /**
   * In every reachable state a peer is known exactly when it was dialed and not lost since; it is free to be
   * asked exactly when its last word since was to unchoke us; and its counter is what is still out to it.
   */
  lemma {:induction false} PeersAreHistory(tor: Torrent, p: Picker, disk: Bytes, acts: seq<Act>, a: SocketAddr)
    requires Starts(tor, p, disk) && Matched(p) && LegalRun(tor, Opened(p, disk), acts)
    ensures var s := Run(tor, Opened(p, disk), acts);
      && (a in s.peers <==> IsKnown(acts, a))
      && (a in s.peers ==> (!s.peers[a].choking <==> HasUnchoked(acts, a)))
      && (a in s.peers ==> s.peers[a].outstanding == StillOut(acts, a))
    decreases |acts|
  {
    hide Matched, Starts, Sound, Books, DiskAgrees, Pipelined, Base, Possible, LegalFills, TakeFills, RefillsFor;
    if acts != [] {
      var front, act := acts[..|acts| - 1], acts[|acts| - 1];
      LegalLast(tor, Opened(p, disk), acts);
      RunKeepsSafe(tor, p, disk, front);
      PeersAreHistory(tor, p, disk, front, a);
      var s := Run(tor, Opened(p, disk), front);
      EventPeers(tor, s, act.event, a);
      EventKeeps(tor, s, act.event);
      FillsCount(tor, Base(tor, s, act.event), act.fills);
    }
  }

  // ------------------------------------------------------------------ bitfields

  lemma AnnouncedAre(tor: Torrent, bytes: seq<bv8>, i: nat)
    requires BF.ByteLength(tor.n) <= |bytes|
    ensures i in Announced(tor, bytes) <==> i < tor.n && BF.TopBit(bytes[i / 8], i % 8)
  {
    hide BF.Bit, BF.TopBit;
    if i < tor.n {
      BF.BitIsFromTheTop(bytes, i);
    }
  }

  /** What an event does to one peer's bitfield. */
  lemma EventFields(tor: Torrent, s: Session, e: Event, a: SocketAddr, i: nat)
    requires Possible(tor, s, e) && i < tor.n
    ensures var fields := AL.FieldsAfter(tor, s.bitfields, e);
      && (e.Written? || e.addr != a || e.Dialed? || e.Unchoked? || e.Choked? || e.BlockArrived? ==>
            AL.Known(fields, a) == AL.Known(s.bitfields, a) && (a in fields <==> a in s.bitfields))
      && (e == Connected(a) || e == Disconnected(a) ==> i !in AL.Known(fields, a) && (a in fields <==> e.Connected?))
      && (e == HaveAll(a) ==> a in fields && i in fields[a])
      && (e.BitfieldReceived? && e.addr == a ==>
            a in fields && (i in fields[a] <==> BF.TopBit(e.bytes[i / 8], i % 8)))
      && (e.Have? && e.addr == a ==>
            (&& (a in fields <==> a in s.bitfields)
             && (i in AL.Known(fields, a) <==> i in AL.Known(s.bitfields, a) || (a in s.bitfields && e.piece == i))))
  {
    hide BF.TopBit, Announced, Missing;
    if e.BitfieldReceived? {
      AnnouncedAre(tor, e.bytes, i);
    }
  }

  /**
   * In every reachable state a bitfield is kept for exactly the peers heard of and not lost since, and it holds
   * exactly the pieces the peer announced since then: by a set bit of its bitfield, all at once or one by one.
   */
  lemma {:induction false} FieldsAreHistory(tor: Torrent, p: Picker, disk: Bytes, acts: seq<Act>, a: SocketAddr,
                                            i: nat)
    requires Starts(tor, p, disk) && Matched(p) && LegalRun(tor, Opened(p, disk), acts) && i < tor.n
    ensures var s := Run(tor, Opened(p, disk), acts);
      && (a in s.bitfields <==> IsListed(acts, a))
      && (a in s.bitfields ==> (i in s.bitfields[a] <==> HasAnnounced(acts, a, i)))
    ensures HasAnnounced(acts, a, i) ==> IsListed(acts, a)
    decreases |acts|
  {
    hide Matched, Starts, Sound, Books, DiskAgrees, Pipelined, Base, LegalFills, TakeFills, RefillsFor, Step,
         AL.FieldsAfter, BF.TopBit, Missing;
    if acts != [] {
      var front, act := acts[..|acts| - 1], acts[|acts| - 1];
      LegalLast(tor, Opened(p, disk), acts);
      RunKeepsSafe(tor, p, disk, front);
      FieldsAreHistory(tor, p, disk, front, a, i);
      var s := Run(tor, Opened(p, disk), front);
      EventFields(tor, s, act.event, a, i);
      AL.StepCounts(tor, s, act.event, act.fills);
    }
  }

  // -------------------------------------------------------------- pending lists

  lemma {:induction false} WithoutHas(blocks: seq<BlockRequest>, piece: nat, offset: nat, b: BlockRequest)
    ensures b in Without(blocks, piece, offset) <==> b in blocks && !(b.piece == piece && b.offset == offset)
  {
    if blocks != [] {
      WithoutHas(blocks[1..], piece, offset, b);
      assert blocks == [blocks[0]] + blocks[1..];
    }
  }

  /** A request leaves a peer's list when its block comes, or with all others when the peer chokes, connects or goes. */
  lemma EventPending(tor: Torrent, s: Session, e: Event, a: SocketAddr, b: BlockRequest)
    requires Sound(tor, s.picker) && Matched(s.picker) && Possible(tor, s, e)
    ensures b in PendingOf(Base(tor, s, e), a) <==>
      (&& b in PendingOf(s, a)
       && e != Choked(a) && e != Connected(a) && e != Disconnected(a)
       && !(e.BlockArrived? && e.addr == a && b.piece == e.piece && b.offset == e.offset))
  {
    hide Sound, Matched, DiskAfter, Missing, AcceptBlock, Unassign;
    if e.BlockArrived? {
      AcceptPending(tor, BeforeBlock(s, e.addr, e.piece, e.offset), e.piece, e.offset, e.data);
      if e.addr in s.pending {
        WithoutHas(s.pending[e.addr], e.piece, e.offset, b);
      }
    }
  }

  lemma AcceptPending(tor: Torrent, s: Session, piece: nat, offset: nat, data: Bytes)
    requires Matched(s.picker)
    ensures AcceptBlock(tor, s, piece, offset, data).pending == s.pending
  {
    hide BlockReceived, MarkVerified, PieceFailed, Verifies;
  }

  /** A request for a whole block of a piece the peer has and we lack. */
  ghost predicate Proper(tor: Torrent, s: Session, addr: SocketAddr, r: BlockRequest)
    requires tor.pieceLength > 0
  {
    && addr in s.bitfields && r.piece in s.bitfields[addr] && r.piece < tor.n && r.piece !in s.picker.have
    && r.offset % BLOCK_SIZE == 0
    && var length := PickerPieceLength(tor.n, tor.pieceLength, tor.total, r.piece);
      r.offset / BLOCK_SIZE < NumBlocks(length) && r.length == BlockLength(length, r.offset / BLOCK_SIZE)
  }

  lemma PickPending(tor: Torrent, s: Session, addr: SocketAddr, pick: Pick)
    requires Sound(tor, s.picker) && Matched(s.picker) && Shape(s.picker) && addr in s.peers && addr in s.bitfields
    requires LegalPick(s.picker, s.bitfields[addr], Some(pick.piece))
    ensures tor.pieceLength > 0 && s.picker.pieceLength > 0 && Pickable(s.picker, pick.piece)
    ensures Proper(tor, s, addr, Requested(s.picker, pick.piece))
    ensures TakePick(s, addr, pick).pending
         == if pick.sent then s.pending[addr := PendingOf(s, addr) + [Requested(s.picker, pick.piece)]] else s.pending
  {
    hide Inv, Shape, Matched, LegalPick, Requested, AfterPick, Pickable, PickerPieceLength, BlockLength, NumBlocks;
    PickOfMissing(s.picker, s.bitfields[addr], pick.piece);
    LegalIsPickable(s.picker, s.bitfields[addr], pick.piece);
    PickSound(s.picker, s.bitfields[addr], pick.piece);
    MultipleOf(Requested(s.picker, pick.piece).offset);
  }

  lemma MultipleOf(offset: nat)
    ensures offset == offset / BLOCK_SIZE * BLOCK_SIZE ==> offset % BLOCK_SIZE == 0
  {
  }

  /** Filling a pipeline appends one proper request for each that was sent, and touches no other peer's list. */
  lemma {:induction false} PicksPending(tor: Torrent, s: Session, addr: SocketAddr, left: nat, picks: seq<Pick>)
    returns (more: seq<BlockRequest>)
    requires Sound(tor, s.picker) && Matched(s.picker) && LegalPicks(s, addr, left, picks) && addr in s.peers
    ensures tor.pieceLength > 0
    ensures var t := TakePicks(s, addr, picks);
      && PendingOf(t, addr) == PendingOf(s, addr) + more && |more| == CountSent(picks)
      && (forall a :: a != addr ==> PendingOf(t, a) == PendingOf(s, a))
      && (forall k :: 0 <= k < |more| ==> Proper(tor, s, addr, more[k]))
    decreases |picks|
  {
    hide Sound, Inv, Shape, Matched, LegalPick, TakePick, Proper;
    SoundIs(tor, s.picker);
    TiledIs(tor.n, tor.pieceLength, tor.total);
    more := [];
    if picks == [] {
      assert PendingOf(s, addr) + [] == PendingOf(s, addr);
    } else {
      PickKeeps(tor, s, addr, picks[0]);
      PickPending(tor, s, addr, picks[0]);
      var t := TakePick(s, addr, picks[0]);
      if picks[0].sent {
        var rest := PicksPending(tor, t, addr, left - 1, picks[1..]);
        var r := Requested(s.picker, picks[0].piece);
        forall k | 0 <= k < |rest|
          ensures Proper(tor, s, addr, rest[k])
        {
          SameProper(tor, s, t, addr, rest[k]);
        }
        assert PendingOf(s, addr) + [r] + rest == PendingOf(s, addr) + ([r] + rest);
        more := [r] + rest;
      } else {
        assert picks[1..] == [];
        assert PendingOf(s, addr) + [] == PendingOf(s, addr);
      }
    }
  }

  lemma SameProper(tor: Torrent, s: Session, t: Session, addr: SocketAddr, r: BlockRequest)
    requires tor.pieceLength > 0 && s.bitfields == t.bitfields && s.picker.have == t.picker.have
    requires Proper(tor, t, addr, r)
    ensures Proper(tor, s, addr, r)
  {
  }

  // ------------------------------------------------------------- released blocks

  /** Some request in the list names block j of piece i. */
  ghost predicate Names(blocks: seq<BlockRequest>, i: nat, j: nat) {
    exists k :: 0 <= k < |blocks| && blocks[k].piece == i && blocks[k].offset / BLOCK_SIZE == j
  }

  lemma NamesCons(blocks: seq<BlockRequest>, i: nat, j: nat)
    requires blocks != []
    ensures Names(blocks, i, j)
       <==> (blocks[0].piece == i && blocks[0].offset / BLOCK_SIZE == j) || Names(blocks[1..], i, j)
  {
    if Names(blocks[1..], i, j) {
      var k :| 0 <= k < |blocks[1..]| && blocks[1..][k].piece == i && blocks[1..][k].offset / BLOCK_SIZE == j;
      assert blocks[k + 1].piece == i;
    }
    if Names(blocks, i, j) {
      var k :| 0 <= k < |blocks| && blocks[k].piece == i && blocks[k].offset / BLOCK_SIZE == j;
      assert k > 0 ==> blocks[1..][k - 1] == blocks[k];
    }
  }

  /** Giving requests back frees exactly the blocks they name that have not been received, and nothing else changes. */
  lemma {:induction false} ReleasedAre(p: Picker, blocks: seq<BlockRequest>, i: nat, j: nat)
    requires Matched(p)
    ensures var q := Unassign(p, blocks);
      && q.inProgress.Keys == p.inProgress.Keys
      && (i in p.inProgress ==> SameContents(q.inProgress[i], p.inProgress[i]))
      && (i in p.inProgress && j < |p.inProgress[i].asked| ==>
            |q.inProgress[i].asked| == |p.inProgress[i].asked|
            && (q.inProgress[i].asked[j] <==>
                  p.inProgress[i].asked[j] && !(Names(blocks, i, j) && !p.inProgress[i].received[j])))
    decreases |blocks|
  {
    hide Matched, Names;
    MatchedAt(p);
    if blocks == [] {
      NoNames(i, j);
    } else {
      NamesCons(blocks, i, j);
      var q := UnassignBlock(p, blocks[0].piece, blocks[0].offset);
      ReleasedAre(q, blocks[1..], i, j);
    }
  }

  lemma MatchedAt(p: Picker)
    requires Matched(p)
    ensures forall i :: i in p.inProgress ==> |p.inProgress[i].received| == |p.inProgress[i].asked|
  {
  }

  lemma NoNames(i: nat, j: nat)
    ensures !Names([], i, j)
  {
  }

  /** When a peer chokes us or goes, exactly the blocks in its list that have not come are free again. */
  lemma PendingIsReleased(tor: Torrent, s: Session, e: Event, i: nat, j: nat)
    requires Matched(s.picker) && (e.Choked? || e.Disconnected?)
    ensures var q := Base(tor, s, e).picker;
      && q.inProgress.Keys == s.picker.inProgress.Keys
      && (i in s.picker.inProgress ==> SameContents(q.inProgress[i], s.picker.inProgress[i]))
      && (i in s.picker.inProgress && j < |s.picker.inProgress[i].asked| ==>
            |q.inProgress[i].asked| == |s.picker.inProgress[i].asked|
            && (q.inProgress[i].asked[j] <==>
                  s.picker.inProgress[i].asked[j]
                  && !(Names(PendingOf(s, e.addr), i, j) && !s.picker.inProgress[i].received[j])))
  {
    hide Unassign, Names, CountedDown;
    ReleasedAre(s.picker, PendingOf(s, e.addr), i, j);
    NoNames(i, j);
  }
}
