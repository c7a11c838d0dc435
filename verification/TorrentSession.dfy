/** The session object: its event handlers carry out the steps of the state machine. */
module TorrentSession {
  import opened ByteStrings
  import opened Wrappers
  import opened Address
  import opened Metainfo
  import opened InfoLengths
  import opened DiskSpans
  import opened DiskMapping
  import opened PickerSpec
  import opened PickerLaws
  import opened SessionSpec
  import opened SessionLaws
  import opened Resume
  import BF = Bitfield
  import PK = PiecePicker

  // ------------------------------------------------------------- pipelines

  /** The pipeline depth of a peer: 64, or scaled with its throughput up to 256. */
  function MaxPipeline(lightspeed: bool, throughput: real): (depth: nat)
    ensures MIN_PIPELINE <= depth <= MAX_PIPELINE
    ensures !lightspeed || throughput <= 8.0 ==> depth == MIN_PIPELINE
    ensures lightspeed && throughput >= 32.0 ==> depth == MAX_PIPELINE
    ensures lightspeed && 8.0 <= throughput <= 32.0 ==> depth as real <= throughput * 8.0 < depth as real + 1.0
  {
    if !lightspeed then MIN_PIPELINE
    else
      var adaptive := (throughput * 8.0).Floor;
      if adaptive < MIN_PIPELINE then MIN_PIPELINE else if adaptive > MAX_PIPELINE then MAX_PIPELINE else adaptive
  }

  /** A pipeline being filled: every pick so far was legal and sent. */
  ghost predicate Sending(s: Session, addr: SocketAddr, picks: seq<Pick>)
    requires Matched(s.picker)
    decreases |picks|
  {
    picks == []
    || (addr in s.bitfields && Shape(s.picker)
        && LegalPick(s.picker, s.bitfields[addr], Some(picks[0].piece)) && picks[0].sent
        && Sending(TakePick(s, addr, picks[0]), addr, picks[1..]))
  }

  lemma {:induction false} SendingOne(s: Session, addr: SocketAddr, picks: seq<Pick>, pick: Pick)
    requires Matched(s.picker) && Sending(s, addr, picks)
    requires var t := TakePicks(s, addr, picks);
      addr in t.bitfields && Shape(t.picker) && LegalPick(t.picker, t.bitfields[addr], Some(pick.piece)) && pick.sent
    ensures Sending(s, addr, picks + [pick])
    decreases |picks|
  {
    hide Shape, LegalPick, TakePick, Matched;
    if picks != [] {
      assert (picks + [pick])[1..] == picks[1..] + [pick];
      SendingOne(TakePick(s, addr, picks[0]), addr, picks[1..], pick);
    } else {
      assert (picks + [pick])[1..] == [];
    }
  }

  /** Legal picks after a pipeline being filled complete it. */
  lemma {:induction false} SendingThen(s: Session, addr: SocketAddr, left: nat, picks: seq<Pick>, rest: seq<Pick>)
    requires Matched(s.picker) && Sending(s, addr, picks) && |picks| <= left
    requires LegalPicks(TakePicks(s, addr, picks), addr, left - |picks|, rest)
    ensures LegalPicks(s, addr, left, picks + rest)
    decreases |picks|
  {
    hide Shape, LegalPick, TakePick, Matched;
    if picks != [] {
      assert (picks + rest)[1..] == picks[1..] + rest;
      SendingThen(TakePick(s, addr, picks[0]), addr, left - 1, picks[1..], rest);
    } else {
      assert picks + rest == rest;
    }
  }

  lemma StartsSending(s: Session, addr: SocketAddr)
    requires Matched(s.picker)
    ensures Sending(s, addr, []) && TakePicks(s, addr, []) == s
  {
  }

  lemma FillStops(s: Session, addr: SocketAddr, depth: nat)
    requires Matched(s.picker) && MIN_PIPELINE <= depth <= MAX_PIPELINE && Idle(s, addr, depth)
    ensures LegalFill(s, Fill(addr, depth, []))
  {
    hide LegalPicks;
  }

  lemma FillWorks(s: Session, f: Fill)
    requires Matched(s.picker) && MIN_PIPELINE <= f.depth <= MAX_PIPELINE && !Idle(s, f.addr, f.depth)
    requires LegalPicks(s, f.addr, f.depth - s.peers[f.addr].outstanding, f.picks)
    ensures LegalFill(s, f)
  {
    hide LegalPicks;
  }

  /** The pipeline is full. */
  lemma SendingFull(s: Session, addr: SocketAddr, left: nat, picks: seq<Pick>)
    requires Matched(s.picker) && Sending(s, addr, picks) && |picks| == left
    requires var t := TakePicks(s, addr, picks); addr in t.bitfields && Shape(t.picker)
    ensures LegalPicks(s, addr, left, picks)
  {
    hide Shape, Sending, Matched;
    SendingThen(s, addr, left, picks, []);
    assert picks + [] == picks;
  }

  /** One more turn: if it did not send, the picks are complete; otherwise the pipeline is still being filled. */
  lemma SendingEnds(s: Session, addr: SocketAddr, left: nat, picks: seq<Pick>, t: Session, more: seq<Pick>)
    requires Matched(s.picker) && Sending(s, addr, picks) && |picks| < left && t == TakePicks(s, addr, picks)
    requires addr in t.bitfields && Shape(t.picker) && |more| <= 1
    requires LegalPick(t.picker, t.bitfields[addr], if more == [] then None else Some(more[0].piece))
    requires more != [] ==> addr in TakePick(t, addr, more[0]).bitfields && Shape(TakePick(t, addr, more[0]).picker)
    ensures more == [] || !more[0].sent ==> LegalPicks(s, addr, left, picks + more)
    ensures more != [] && more[0].sent ==> Sending(s, addr, picks + more)
    ensures TakePicks(s, addr, picks + more) == if more == [] then t else TakePick(t, addr, more[0])
  {
    hide Shape, LegalPick, TakePick, Matched, Sending;
    if more == [] {
      SendingThen(s, addr, left, picks, []);
      assert picks + [] == picks;
    } else {
      assert more == [more[0]] && more[1..] == [];
      TakeOne(t, addr, more[0]);
      TakeMore(s, addr, picks, more);
      if more[0].sent {
        SendingOne(s, addr, picks, more[0]);
      } else {
        SendingThen(s, addr, left, picks, more);
      }
    }
  }

  lemma {:induction false} TakeMore(s: Session, addr: SocketAddr, picks: seq<Pick>, rest: seq<Pick>)
    requires Matched(s.picker)
    ensures TakePicks(s, addr, picks + rest) == TakePicks(TakePicks(s, addr, picks), addr, rest)
    decreases |picks|
  {
    hide TakePick, Matched;
    if picks != [] {
      assert (picks + rest)[1..] == picks[1..] + rest;
      TakeMore(TakePick(s, addr, picks[0]), addr, picks[1..], rest);
    } else {
      assert picks + rest == rest;
    }
  }

  lemma TakeOne(s: Session, addr: SocketAddr, pick: Pick)
    requires Matched(s.picker)
    ensures TakePicks(s, addr, []) == s
    ensures TakePicks(s, addr, [pick]) == TakePick(s, addr, pick)
  {
    hide TakePick, Matched;
    assert [pick][1..] == [];
  }

  lemma {:induction false} FillsThen(s: Session, fills: seq<Fill>, f: Fill)
    requires Matched(s.picker) && LegalFills(s, fills) && LegalFill(TakeFills(s, fills), f)
    ensures LegalFills(s, fills + [f])
    ensures TakeFills(s, fills + [f]) == TakePicks(TakeFills(s, fills), f.addr, f.picks)
    decreases |fills|
  {
    hide LegalFill, TakePicks, Matched;
    if fills != [] {
      assert (fills + [f])[1..] == fills[1..] + [f];
      FillsThen(TakePicks(s, fills[0].addr, fills[0].picks), fills[1..], f);
    } else {
      assert (fills + [f])[1..] == [];
    }
  }

  lemma NoFills(s: Session)
    requires Matched(s.picker)
    ensures LegalFills(s, []) && TakeFills(s, []) == s && FillsEach({}, [])
  {
  }

  lemma FillOneMore(done: set<SocketAddr>, fills: seq<Fill>, f: Fill)
    requires FillsEach(done, fills) && f.addr !in done
    ensures FillsEach(done + {f.addr}, fills + [f])
  {
    var more := fills + [f];
    forall a
      ensures a in done + {f.addr} <==> exists i :: 0 <= i < |more| && more[i].addr == a
    {
      if a in done {
        var i :| 0 <= i < |fills| && fills[i].addr == a;
        assert more[i].addr == a;
      }
      assert more[|fills|].addr == f.addr;
    }
  }

  // -------------------------------------------------------------- bitfields

  /** The peers' bitfields are objects of their own, none shared with another peer. */
  ghost predicate FieldsValid(fields: map<SocketAddr, BF.Bitfield>, n: nat)
    reads fields.Values
  {
    && (forall a :: a in fields ==> fields[a].Valid() && fields[a].numPieces == n)
    && (forall a, b :: a in fields && b in fields && a != b ==> fields[a] != fields[b])
  }

  ghost function FieldSets(fields: map<SocketAddr, BF.Bitfield>): map<SocketAddr, set<nat>>
    requires forall a :: a in fields ==> BF.ByteLength(fields[a].numPieces) <= |fields[a].bits|
    reads fields.Values
  {
    map a | a in fields :: fields[a].View()
  }

  /** As long as the bitfield objects are not written to, they read as before. */
  twostate lemma FieldsUnmoved(fields: map<SocketAddr, BF.Bitfield>, new n: nat)
    requires old(FieldsValid(fields, n))
    requires forall a :: a in fields ==> unchanged(fields[a])
    ensures FieldsValid(fields, n) && FieldSets(fields) == old(FieldSets(fields))
  {
    hide BF.BitSet;
  }

  lemma FieldAt(fields: map<SocketAddr, BF.Bitfield>, n: nat, addr: SocketAddr)
    requires FieldsValid(fields, n) && addr in fields
    ensures fields[addr].Valid() && fields[addr].numPieces == n
    ensures addr in FieldSets(fields) && FieldSets(fields)[addr] == fields[addr].View()
    ensures forall a :: a in fields && a != addr ==> fields[a] != fields[addr]
  {
    hide BF.BitSet;
  }

  lemma FieldsPut(fields: map<SocketAddr, BF.Bitfield>, n: nat, addr: SocketAddr, bf: BF.Bitfield)
    requires FieldsValid(fields, n) && bf.Valid() && bf.numPieces == n && bf !in fields.Values
    ensures FieldsValid(fields[addr := bf], n)
    ensures FieldSets(fields[addr := bf]) == FieldSets(fields)[addr := bf.View()]
  {
    hide BF.BitSet;
  }

  lemma FieldsDrop(fields: map<SocketAddr, BF.Bitfield>, n: nat, addr: SocketAddr)
    requires FieldsValid(fields, n)
    ensures FieldsValid(fields - {addr}, n) && FieldSets(fields - {addr}) == FieldSets(fields) - {addr}
  {
    hide BF.BitSet;
  }

  /** Writing to one peer's bitfield changes that peer's set alone. */
  twostate lemma FieldMoved(fields: map<SocketAddr, BF.Bitfield>, new n: nat, new addr: SocketAddr)
    requires old(FieldsValid(fields, n)) && addr in fields
    requires forall a :: a in fields && a != addr ==> unchanged(fields[a])
    requires fields[addr].Valid()
    ensures FieldsValid(fields, n)
    ensures FieldSets(fields) == old(FieldSets(fields))[addr := fields[addr].View()]
  {
    hide BF.BitSet;
  }

  lemma FieldKeys(fields: map<SocketAddr, BF.Bitfield>, n: nat)
    requires FieldsValid(fields, n)
    ensures FieldSets(fields).Keys == fields.Keys
  {
  }

  method FullBitfield(n: nat) returns (bf: BF.Bitfield)
    ensures fresh(bf) && bf.Valid() && bf.numPieces == n && bf.View() == Range(n)
  {
    hide BF.BitSet;
    bf := new BF.Bitfield(n);
    for i := 0 to n
      invariant bf.Valid() && bf.numPieces == n && bf.View() == Range(i)
    {
      bf.Set(i);
    }
  }

  lemma PickedSome(p: Picker, i: nat, r: Option<BlockRequest>, q: Picker)
    requires PK.PickedBlock(p, i, r, q)
    ensures r.Some?
  {
  }

  ghost predicate WritesFit(tor: Torrent, writes: seq<Write>) {
    forall k :: 0 <= k < |writes| ==> writes[k].piece < tor.n && |writes[k].data| == LengthIn(tor, writes[k].piece)
  }

  class TorrentSession {
    const tor: Torrent
    const lightspeed: bool
    const picker: PK.PiecePicker
    const mapping: FileMapping
    const disk: Disk
    var peers: map<SocketAddr, PeerState>
    var bitfields: map<SocketAddr, BF.Bitfield>
    var pending: map<SocketAddr, seq<BlockRequest>>
    var writes: seq<Write>
    ghost var verified: map<nat, Bytes>
    ghost var stored: set<nat>
    ghost var spoiled: set<nat>

    ghost predicate Valid()
      reads this, picker, picker.have, picker.inProgress.Values, bitfields.Values, disk
    {
      && picker.Valid() && Sound(tor, picker.View())
      && tor.n <= MAX_PIECES
      && FieldsValid(bitfields, tor.n) && picker.have !in bitfields.Values
      && WritesFit(tor, writes)
      && mapping.Valid() && mapping.lengths == Lengths(disk.files)
      && mapping.pieceLength == tor.pieceLength && mapping.totalLength == tor.total
    }

    ghost function View(): (s: Session)
      requires Valid()
      reads this, picker, picker.have, picker.inProgress.Values, bitfields.Values, disk
      ensures Matched(s.picker)
    {
      PK.ShapeProgs(picker.View());
      Session(picker.View(), peers, FieldSets(bitfields), pending, Flat(disk.files), writes, verified, stored, spoiled)
    }

    constructor (tor: Torrent, picker: PK.PiecePicker, mapping: FileMapping, disk: Disk, lightspeed: bool)
      requires picker.Valid() && Sound(tor, picker.View()) && tor.n <= MAX_PIECES
      requires mapping.Valid() && mapping.lengths == Lengths(disk.files)
      requires mapping.pieceLength == tor.pieceLength && mapping.totalLength == tor.total
      ensures this.tor == tor && this.picker == picker && this.disk == disk && this.lightspeed == lightspeed
      ensures Valid() && View() == Opened(picker.View(), Flat(disk.files))
    {
      this.tor, this.picker, this.mapping, this.disk, this.lightspeed := tor, picker, mapping, disk, lightspeed;
      peers, bitfields, pending, writes := map[], map[], map[], [];
      verified, stored, spoiled := map[], {}, {};
      hide Shape, PK.AllValid, PK.Views, BF.BitSet, Inv, Tiled, Mapped, MappingBounds, Flat, Lengths, Sum, Sound,
        Matched;
    }

    /** Pick a block for a peer. */
    method PickFor(addr: SocketAddr) returns (block: Option<BlockRequest>, ghost choice: Option<nat>)
      requires Valid() && addr in bitfields
      modifies picker`inProgress, picker`mode, picker.inProgress.Values
      ensures Valid() && fresh(picker.inProgress.Values - old(picker.inProgress.Values))
      ensures addr in View().bitfields && addr in old(View()).bitfields
      ensures LegalPick(old(View()).picker, old(View()).bitfields[addr], choice)
      ensures choice.None? ==> block.None? && View() == old(View())
      ensures choice.Some? ==> PK.PickedBlock(old(View()).picker, choice.value, block, View().picker)
      ensures View() == old(View()).(picker := View().picker)
    {
      hide Shape, PK.AllValid, PK.Views, BF.BitSet, LegalPick, Inv, PK.PickedBlock, WritesFit, MappingBounds,
        Mapped, Flat, Lengths, FieldSets, FieldsValid, Matched, Sound;
      ghost var p := picker.View();
      FieldAt(bitfields, tor.n, addr);
      block, choice := picker.PickBlock(bitfields[addr]);
      FieldsUnmoved(bitfields, tor.n);
      if choice.Some? {
        PickedSound(tor, p, old(View()).bitfields[addr], choice.value, block, picker.View());
      }
    }

    /** A request has been sent to a peer. */
    method NoteSent(addr: SocketAddr, block: BlockRequest)
      requires Valid() && addr in peers
      modifies this`peers, this`pending
      ensures Valid() && addr in peers && View() == WithRequest(old(View()), addr, block)
    {
      hide Shape, PK.AllValid, PK.Views, BF.BitSet, Inv, WritesFit, MappingBounds, Mapped, Flat, Lengths,
        FieldSets, FieldsValid, Matched, Sound;
      peers := peers[addr := peers[addr].(outstanding := peers[addr].outstanding + 1)];
      pending := pending[addr := (if addr in pending then pending[addr] else []) + [block]];
    }

    /** `fill_pipeline`'s loop body: pick a block and send the request, which fits the peer's channel or not. */
    method RequestNext(addr: SocketAddr, fits: bool) returns (sent: bool, ghost picks: seq<Pick>)
      requires Valid() && addr in peers && addr in bitfields
      modifies this`peers, this`pending, picker`inProgress, picker`mode, picker.inProgress.Values
      ensures Valid() && fresh(picker.inProgress.Values - old(picker.inProgress.Values))
      ensures addr in peers && addr in View().bitfields && addr in old(View()).bitfields && Shape(View().picker)
      ensures |picks| <= 1 && (sent <==> picks != [] && fits)
      ensures picks == [] ==> View() == old(View()) && LegalPick(View().picker, View().bitfields[addr], None)
      ensures picks != [] ==> LegalPick(old(View()).picker, old(View()).bitfields[addr], Some(picks[0].piece))
      ensures picks != [] ==> picks[0].sent == sent && View() == TakePick(old(View()), addr, picks[0])
    {
      hide Shape, PK.AllValid, PK.Views, BF.BitSet, LegalPick, Inv, PK.PickedBlock, WritesFit, MappingBounds,
        Mapped, Flat, Sound, Lengths, FieldSets, FieldsValid, Matched, TakePick, WithRequest;
      ghost var s := View();
      ghost var choice;
      var block: Option<BlockRequest>;
      block, choice := PickFor(addr);
      if choice.Some? {
        PickedSome(s.picker, choice.value, block, picker.View());
      }
      if block.None? {
        return false, [];
      }
      sent := fits;
      picks := [Pick(choice.value, sent)];
      PickTaken(s, addr, picks[0], block, picker.View());
      if sent {
        NoteSent(addr, block.value);
      }
    }

    /** `fill_pipeline`'s loop: up to so many requests, until nothing is left to pick or one does not fit. */
    method SendRequests(addr: SocketAddr, toRequest: nat, world: World) returns (ghost picks: seq<Pick>)
      requires Valid() && addr in peers && addr in bitfields
      modifies this`peers, this`pending, picker`inProgress, picker`mode, picker.inProgress.Values
      ensures Valid() && fresh(picker.inProgress.Values - old(picker.inProgress.Values))
      ensures LegalPicks(old(View()), addr, toRequest, picks) && SentUnder(world, addr, picks)
      ensures View() == TakePicks(old(View()), addr, picks)
    {
      hide Shape, PK.AllValid, PK.Views, BF.BitSet, LegalPick, Inv, WritesFit, MappingBounds, Mapped, Flat, Sound,
        Lengths, FieldsValid, FieldSets, Matched, TakePick, Sending, LegalPicks, TakePicks, SentUnder;
      ghost var s := View();
      picks := [];
      StartsSending(s, addr);
      SentUnderStart(world, addr);
      for k := 0 to toRequest
        invariant Valid() && addr in peers && addr in bitfields
        invariant fresh(picker.inProgress.Values - old(picker.inProgress.Values))
        invariant |picks| == k && SentUnder(world, addr, picks)
        invariant Sending(s, addr, picks) && View() == TakePicks(s, addr, picks)
      {
        ghost var t := View();
        var sent;
        ghost var more;
        sent, more := RequestNext(addr, world.fits(addr, k));
        SendingEnds(s, addr, toRequest, picks, t, more);
        SentUnderMore(world, addr, picks, more);
        picks := picks + more;
        if !sent {
          return;
        }
      }
      FieldKeys(bitfields, tor.n);
      SendingFull(s, addr, toRequest, picks);
    }

    /** `fill_pipeline`: request blocks of a peer until its pipeline is full, nothing is left to pick, or a send fails. */
    method FillPipeline(addr: SocketAddr, world: World) returns (ghost fill: Fill)
      requires Valid()
      modifies this`peers, this`pending, picker`inProgress, picker`mode, picker.inProgress.Values
      ensures Valid() && fresh(picker.inProgress.Values - old(picker.inProgress.Values))
      ensures fill.addr == addr && LegalFill(old(View()), fill) && FillUnder(lightspeed, world, fill)
      ensures View() == TakePicks(old(View()), addr, fill.picks)
    {
      hide Shape, PK.AllValid, PK.Views, BF.BitSet, LegalPick, Inv, WritesFit, MappingBounds, Mapped, Flat, Sound,
        Lengths, FieldsValid, FieldSets, Matched, TakePick, LegalPicks, TakePicks, MaxPipeline, LegalFill, SentUnder;
      ghost var s := View();
      var depth := MaxPipeline(lightspeed, world.throughput(addr));
      StartsSending(s, addr);
      SentUnderStart(world, addr);
      FieldKeys(bitfields, tor.n);
      if addr !in peers || peers[addr].choking || peers[addr].outstanding >= depth || addr !in bitfields {
        FillStops(s, addr, depth);
        return Fill(addr, depth, []);
      }
      ghost var picks := SendRequests(addr, depth - peers[addr].outstanding, world);
      fill := Fill(addr, depth, picks);
      FillWorks(s, fill);
    }

    /** `refill_all_peers`: the peers come in no particular order. */
    method RefillAllPeers(world: World) returns (ghost fills: seq<Fill>)
      requires Valid()
      modifies this`peers, this`pending, picker`inProgress, picker`mode, picker.inProgress.Values
      ensures Valid() && fresh(picker.inProgress.Values - old(picker.inProgress.Values))
      ensures RefillsAll(old(View()), fills) && LegalFills(old(View()), fills)
      ensures View() == TakeFills(old(View()), fills) && FillsUnder(lightspeed, world, fills)
    {
      hide Shape, PK.AllValid, PK.Views, BF.BitSet, LegalPick, Inv, WritesFit, MappingBounds, Mapped, Flat, Sound,
        Lengths, FieldsValid, FieldSets, Matched, LegalFill, LegalFills, TakeFills, TakePicks, FillsEach,
        FillUnder, FillsUnder;
      ghost var s := View();
      fills := [];
      NoFills(s);
      FillsUnderStart(lightspeed, world);
      var todo := peers.Keys;
      assert s.peers.Keys - todo == {};
      while todo != {}
        invariant Valid() && fresh(picker.inProgress.Values - old(picker.inProgress.Values))
        invariant todo <= s.peers.Keys && FillsEach(s.peers.Keys - todo, fills)
        invariant LegalFills(s, fills) && View() == TakeFills(s, fills) && FillsUnder(lightspeed, world, fills)
        decreases |todo|
      {
        var addr :| addr in todo;
        ghost var fill := FillPipeline(addr, world);
        FillsThen(s, fills, fill);
        FillsUnderMore(lightspeed, world, fills, fill);
        FillOneMore(s.peers.Keys - todo, fills, fill);
        assert s.peers.Keys - todo + {addr} == s.peers.Keys - (todo - {addr});
        todo := todo - {addr};
        fills := fills + [fill];
      }
      assert s.peers.Keys - todo == s.peers.Keys;
    }

    /** `release_peer_blocks`: a peer's pending blocks go back to the picker. */
    method ReleasePeerBlocks(addr: SocketAddr)
      requires Valid()
      modifies this`pending, picker.inProgress.Values
      ensures Valid() && View() == Release(old(View()), addr)
    {
      hide Shape, PK.AllValid, PK.Views, BF.BitSet, LegalPick, Inv, WritesFit, MappingBounds, Mapped, Flat, Sound,
        Lengths, FieldsValid, FieldSets, Matched;
      if addr !in pending {
        return;
      }
      ghost var s := View();
      UnassignAll(pending[addr]);
      ReleaseKeeps(tor, s, addr);
      FieldsUnmoved(bitfields, tor.n);
      pending := pending[addr := []];
    }

    method UnassignAll(blocks: seq<BlockRequest>)
      requires picker.Valid()
      modifies picker.inProgress.Values
      ensures picker.Valid() && Matched(old(picker.View())) && picker.View() == Unassign(old(picker.View()), blocks)
    {
      hide Shape, PK.AllValid, PK.Views, BF.BitSet, Matched;
      ghost var p := picker.View();
      PK.ShapeProgs(p);
      for k := 0 to |blocks|
        invariant picker.Valid() && Matched(picker.View())
        invariant Unassign(picker.View(), blocks[k..]) == Unassign(p, blocks)
      {
        assert blocks[k..][1..] == blocks[k + 1..];
        picker.UnassignBlock(blocks[k].piece, blocks[k].offset);
        PK.ShapeProgs(picker.View());
      }
      assert blocks[|blocks|..] == [];
    }

    // ---------------------------------------------------------------- events

    /** `spawn_connection`. */
    method Dial(addr: SocketAddr)
      requires Valid() && addr !in peers
      modifies this`peers
      ensures Valid() && View() == Base(tor, old(View()), Dialed(addr))
    {
      hide Shape, PK.AllValid, PK.Views, BF.BitSet, LegalPick, Inv, WritesFit, MappingBounds, Mapped, Flat, Sound,
        Lengths, FieldsValid, FieldSets, Matched;
      peers := peers[addr := PeerState(true, 0)];
    }

    method NoteConnected(addr: SocketAddr)
      requires Valid()
      modifies this`bitfields, this`pending
      ensures Valid() && View() == Base(tor, old(View()), Connected(addr))
      ensures fresh(bitfields.Values - old(bitfields.Values))
    {
      hide Shape, PK.AllValid, PK.Views, BF.BitSet, LegalPick, Inv, WritesFit, MappingBounds, Mapped, Flat, Sound,
        Lengths, FieldsValid, FieldSets, Matched;
      ghost var s := View();
      var bf := new BF.Bitfield(tor.n);
      FieldsPut(bitfields, tor.n, addr, bf);
      bitfields := bitfields[addr := bf];
      pending := pending[addr := []];
    }

    method NoteBitfield(addr: SocketAddr, bytes: seq<bv8>)
      requires Valid() && BF.ByteLength(tor.n) <= |bytes|
      modifies this`bitfields, picker`availability
      ensures Valid() && View() == Base(tor, old(View()), BitfieldReceived(addr, bytes))
      ensures fresh(bitfields.Values - old(bitfields.Values))
    {
      hide Shape, PK.AllValid, PK.Views, BF.BitSet, LegalPick, Inv, WritesFit, MappingBounds, Mapped, Flat, Sound,
        Lengths, FieldsValid, FieldSets, Matched, PickerSpec.PeerHasBitfield;
      ghost var p := picker.View();
      var bf := new BF.Bitfield.FromBytes(bytes, tor.n);
      AddBitfield(addr, bf);
    }

    /** Count a peer's bitfield and store it. */
    method AddBitfield(addr: SocketAddr, bf: BF.Bitfield)
      requires Valid() && bf.Valid() && bf.numPieces == tor.n && bf !in bitfields.Values && bf != picker.have
      modifies this`bitfields, picker`availability
      ensures Valid() && bf.View() == old(bf.View()) && bitfields == old(bitfields)[addr := bf]
      ensures View() == old(View()).(picker := PickerSpec.PeerHasBitfield(old(View()).picker, bf.View()),
                                     bitfields := old(View()).bitfields[addr := bf.View()])
    {
      hide Shape, PK.AllValid, PK.Views, BF.BitSet, LegalPick, Inv, WritesFit, MappingBounds, Mapped, Flat, Sound,
        Lengths, FieldsValid, FieldSets, Matched, PickerSpec.PeerHasBitfield;
      CountsKeep(tor, picker.View(), bf.View(), 0);
      picker.PeerHasBitfield(bf);
      FieldsUnmoved(bitfields, tor.n);
      FieldsPut(bitfields, tor.n, addr, bf);
      bitfields := bitfields[addr := bf];
    }

    method NoteHaveAll(addr: SocketAddr)
      requires Valid()
      modifies this`bitfields, picker`availability
      ensures Valid() && View() == Base(tor, old(View()), HaveAll(addr))
      ensures fresh(bitfields.Values - old(bitfields.Values))
    {
      hide Shape, PK.AllValid, PK.Views, BF.BitSet, LegalPick, Inv, WritesFit, MappingBounds, Mapped, Flat, Sound,
        Lengths, FieldsValid, FieldSets, Matched, PickerSpec.PeerHasBitfield;
      var bf := FullBitfield(tor.n);
      AddBitfield(addr, bf);
    }

    method CountPiece(piece: nat)
      requires Valid()
      modifies picker`availability
      ensures Valid()
      ensures View() == old(View()).(picker := PickerSpec.PeerHasPiece(old(View()).picker, piece))
    {
      hide Shape, PK.AllValid, PK.Views, BF.BitSet, LegalPick, Inv, WritesFit, MappingBounds, Mapped, Flat, Sound,
        Lengths, FieldsValid, FieldSets, Matched, PickerSpec.PeerHasPiece;
      CountsKeep(tor, picker.View(), {}, piece);
      picker.PeerHasPiece(piece);
      FieldsUnmoved(bitfields, tor.n);
    }

    method SetHeld(addr: SocketAddr, piece: nat)
      requires Valid() && addr in bitfields
      modifies bitfields[addr]
      ensures Valid() && addr in old(View()).bitfields
      ensures View() == if piece < tor.n
                        then old(View()).(bitfields :=
                               old(View()).bitfields[addr := old(View()).bitfields[addr] + {piece}])
                        else old(View())
    {
      hide Shape, PK.AllValid, PK.Views, BF.BitSet, LegalPick, Inv, WritesFit, MappingBounds, Mapped, Flat, Sound,
        Lengths, FieldsValid, FieldSets, Matched;
      ghost var s := View();
      FieldAt(bitfields, tor.n, addr);
      bitfields[addr].Set(piece);
      FieldMoved(bitfields, tor.n, addr);
      assert s.bitfields[addr := s.bitfields[addr]] == s.bitfields;
    }

    method NoteHave(addr: SocketAddr, piece: nat)
      requires Valid()
      modifies bitfields.Values, picker`availability
      ensures Valid() && View() == Base(tor, old(View()), Have(addr, piece))
    {
      hide Shape, PK.AllValid, PK.Views, BF.BitSet, LegalPick, Inv, WritesFit, MappingBounds, Mapped, Flat, Sound,
        Lengths, FieldsValid, FieldSets, Matched, PickerSpec.PeerHasPiece;
      FieldKeys(bitfields, tor.n);
      CountPiece(piece);
      if addr in bitfields {
        SetHeld(addr, piece);
      }
    }

    method NoteUnchoked(addr: SocketAddr)
      requires Valid()
      modifies this`peers
      ensures Valid() && View() == Base(tor, old(View()), Unchoked(addr))
    {
      hide Shape, PK.AllValid, PK.Views, BF.BitSet, LegalPick, Inv, WritesFit, MappingBounds, Mapped, Flat, Sound,
        Lengths, FieldsValid, FieldSets, Matched;
      if addr in peers {
        peers := peers[addr := peers[addr].(choking := false)];
      }
    }

    method NoteChoked(addr: SocketAddr)
      requires Valid()
      modifies this`peers, this`pending, picker.inProgress.Values
      ensures Valid() && View() == Base(tor, old(View()), Choked(addr))
    {
      hide Shape, PK.AllValid, PK.Views, BF.BitSet, LegalPick, Inv, WritesFit, MappingBounds, Mapped, Flat, Sound,
        Lengths, FieldsValid, FieldSets, Matched, Release;
      ReleaseKeeps(tor, View(), addr);
      ReleasePeerBlocks(addr);
      if addr in peers {
        peers := peers[addr := PeerState(true, 0)];
      }
    }

    method NoteAnswered(addr: SocketAddr, piece: nat, offset: nat)
      requires Valid()
      modifies this`peers, this`pending
      ensures Valid() && View() == BeforeBlock(old(View()), addr, piece, offset)
    {
      hide Shape, PK.AllValid, PK.Views, BF.BitSet, LegalPick, Inv, WritesFit, MappingBounds, Mapped, Flat, Sound,
        Lengths, FieldsValid, FieldSets, Matched;
      if addr in pending {
        pending := pending[addr := Without(pending[addr], piece, offset)];
      }
      if addr in peers {
        var outstanding := peers[addr].outstanding;
        peers := peers[addr := peers[addr].(outstanding := if outstanding > 0 then outstanding - 1 else 0)];
      }
    }

    method IssueWrite(piece: nat, bytes: Bytes)
      requires Valid() && piece < tor.n && |bytes| == LengthIn(tor, piece)
      modifies this`writes, this`verified
      ensures Valid()
      ensures View() == old(View()).(writes := old(writes) + [Write(piece, bytes)],
                                     verified := old(verified)[piece := bytes])
    {
      hide Shape, PK.AllValid, PK.Views, BF.BitSet, LegalPick, Inv, WritesFit, MappingBounds, Mapped, Flat, Sound,
        Lengths, FieldsValid, FieldSets, Matched, LengthIn;
      OneMoreFits(tor, writes, piece, bytes);
      writes := writes + [Write(piece, bytes)];
      verified := verified[piece := bytes];
    }

    /** Check a completed piece: mark it verified and issue its write, or give it up. */
    method CheckPiece(piece: nat, bytes: Bytes)
      requires Valid() && piece < tor.n && piece !in View().picker.have && |bytes| == LengthIn(tor, piece)
      modifies this`writes, this`verified, picker`inProgress, picker`verifiedCount, picker`mode, picker.have
      ensures Valid() && picker.inProgress.Values <= old(picker.inProgress.Values)
      ensures View() == Settled(tor, old(View()), piece, bytes)
    {
      hide Shape, PK.AllValid, PK.Views, BF.BitSet, LegalPick, Inv, WritesFit, MappingBounds, Mapped, Flat, Sound,
        Lengths, FieldsValid, FieldSets, Matched, MarkVerified, PieceFailed, LengthIn;
      ghost var s := View();
      SettledSound(tor, s.picker, piece);
      if piece < |tor.hashes| && tor.sha1(bytes) == tor.hashes[piece] {
        picker.MarkVerified(piece);
        FieldsUnmoved(bitfields, tor.n);
        IssueWrite(piece, bytes);
      } else {
        picker.PieceFailed(piece);
        FieldsUnmoved(bitfields, tor.n);
      }
    }

    /** Hand a block to the picker and check the piece it completes, if any. */
    method TakeBlock(piece: nat, offset: nat, data: Bytes)
      requires Valid()
      modifies this`writes, this`verified, picker`inProgress, picker`verifiedCount, picker`mode, picker.have,
        picker.inProgress.Values
      ensures Valid() && picker.inProgress.Values <= old(picker.inProgress.Values)
      ensures View() == AcceptBlock(tor, old(View()), piece, offset, data)
    {
      hide Shape, PK.AllValid, PK.Views, BF.BitSet, LegalPick, Inv, WritesFit, MappingBounds, Mapped, Flat, Sound,
        Lengths, FieldsValid, FieldSets, Matched, BlockReceived, LengthIn, Settled;
      ghost var s := View();
      BlockSound(tor, s.picker, piece, offset, data);
      var result := picker.BlockReceived(piece, offset, data);
      FieldsUnmoved(bitfields, tor.n);
      if result.PieceComplete? {
        CheckPiece(piece, result.data);
      }
    }

    method NoteBlock(addr: SocketAddr, piece: nat, offset: nat, data: Bytes)
      requires Valid()
      modifies this`peers, this`pending, this`writes, this`verified, picker`inProgress, picker`verifiedCount, picker`mode,
        picker.have, picker.inProgress.Values
      ensures Valid() && picker.inProgress.Values <= old(picker.inProgress.Values)
      ensures View() == Base(tor, old(View()), BlockArrived(addr, piece, offset, data))
    {
      hide Shape, PK.AllValid, PK.Views, BF.BitSet, LegalPick, Inv, WritesFit, MappingBounds, Mapped, Flat, Sound,
        Lengths, FieldsValid, FieldSets, Matched, AcceptBlock, BeforeBlock;
      NoteAnswered(addr, piece, offset);
      TakeBlock(piece, offset, data);
    }

    /** Take a peer's pieces out of the availability counts and forget its bitfield. */
    method DropBitfield(addr: SocketAddr)
      requires Valid()
      modifies this`bitfields, picker`availability
      ensures Valid() && bitfields == old(bitfields) - {addr}
      ensures View() == if addr in old(View()).bitfields
                        then old(View()).(picker :=
                               PickerSpec.PeerDisconnected(old(View()).picker, old(View()).bitfields[addr]),
                             bitfields := old(View()).bitfields - {addr})
                        else old(View()).(bitfields := old(View()).bitfields - {addr})
    {
      hide Shape, PK.AllValid, PK.Views, BF.BitSet, LegalPick, Inv, WritesFit, MappingBounds, Mapped, Flat, Sound,
        Lengths, FieldsValid, FieldSets, Matched, PickerSpec.PeerDisconnected;
      FieldKeys(bitfields, tor.n);
      if addr in bitfields {
        FieldAt(bitfields, tor.n, addr);
        CountsKeep(tor, picker.View(), bitfields[addr].View(), 0);
        picker.PeerDisconnected(bitfields[addr]);
        FieldsUnmoved(bitfields, tor.n);
      }
      FieldsDrop(bitfields, tor.n, addr);
      bitfields := bitfields - {addr};
    }

    method NoteDisconnected(addr: SocketAddr)
      requires Valid()
      modifies this`peers, this`pending, this`bitfields, picker`availability, picker.inProgress.Values
      ensures Valid() && View() == Base(tor, old(View()), Disconnected(addr))
      ensures fresh(bitfields.Values - old(bitfields.Values))
    {
      hide Shape, PK.AllValid, PK.Views, BF.BitSet, LegalPick, Inv, WritesFit, MappingBounds, Mapped, Flat, Sound,
        Lengths, FieldsValid, FieldSets, Matched, Release, PickerSpec.PeerDisconnected;
      ReleaseKeeps(tor, View(), addr);
      ReleasePeerBlocks(addr);
      ForgetPeer(addr);
      DropBitfield(addr);
    }

    method ForgetPeer(addr: SocketAddr)
      requires Valid()
      modifies this`peers, this`pending
      ensures Valid()
      ensures View() == old(View()).(peers := old(View()).peers - {addr}, pending := old(View()).pending - {addr})
    {
      hide Shape, PK.AllValid, PK.Views, BF.BitSet, LegalPick, Inv, WritesFit, MappingBounds, Mapped, Flat, Sound,
        Lengths, FieldsValid, FieldSets, Matched;
      peers, pending := peers - {addr}, pending - {addr};
    }

    /** The disk task settles one of the issued writes; a failed one may leave anything in its piece. */
    method FinishWrite(index: nat, outcome: WriteOutcome)
      requires Valid() && index < |writes|
      requires outcome.Failed? ==> |outcome.left| == |writes[index].data|
      modifies this`writes, this`stored, this`spoiled, disk
      ensures Valid() && View() == Base(tor, old(View()), Written(index, outcome))
    {
      hide Shape, PK.AllValid, PK.Views, BF.BitSet, LegalPick, Inv, WritesFit, MappingBounds, Mapped, Flat, Sound,
        Lengths, FieldsValid, FieldSets, Matched, DiskAfter;
      ghost var s := View();
      var w := writes[index];
      OneFits(tor, picker.View(), writes, index);
      disk.WritePiece(mapping, w.piece, if outcome.Succeeded? then w.data else outcome.left);
      DiskAfterIs(tor, s.disk, w, outcome);
      FewerFit(tor, writes, index);
      writes := writes[..index] + writes[index + 1..];
      if outcome.Succeeded? {
        stored := stored + {w.piece};
      } else {
        spoiled := spoiled + {w.piece};
      }
      FieldsUnmoved(bitfields, tor.n);
    }

    /** What a peer's event does before pipelines are refilled. */
    method Apply(e: Event)
      requires Valid() && WellSized(tor, e) && !e.Dialed? && !e.Written?
      modifies this`peers, this`pending, this`bitfields, this`writes, this`verified, picker`availability,
        picker`inProgress, picker`verifiedCount, picker`mode, picker.have, picker.inProgress.Values, bitfields.Values
      ensures Valid() && picker.inProgress.Values <= old(picker.inProgress.Values)
      ensures fresh(bitfields.Values - old(bitfields.Values))
      ensures View() == Base(tor, old(View()), e)
    {
      hide Shape, PK.AllValid, PK.Views, BF.BitSet, LegalPick, Inv, WritesFit, MappingBounds, Mapped, Flat, Sound,
        Lengths, FieldsValid, FieldSets, Matched, Base;
      match e {
        case Connected(addr) => NoteConnected(addr);
        case BitfieldReceived(addr, bytes) => NoteBitfield(addr, bytes);
        case HaveAll(addr) => NoteHaveAll(addr);
        case Have(addr, piece) => NoteHave(addr, piece);
        case Unchoked(addr) => NoteUnchoked(addr);
        case Choked(addr) => NoteChoked(addr);
        case BlockArrived(addr, piece, offset, data) => NoteBlock(addr, piece, offset, data);
        case Disconnected(addr) => NoteDisconnected(addr);
      }
    }

    /** The pipelines refilled after a peer's event: its own, everybody's, or none. */
    method Refill(e: Event, world: World) returns (ghost fills: seq<Fill>)
      requires Valid() && !e.Dialed? && !e.Written?
      modifies this`peers, this`pending, picker`inProgress, picker`mode, picker.inProgress.Values
      ensures Valid() && fresh(picker.inProgress.Values - old(picker.inProgress.Values))
      ensures RefillsFor(old(View()), e, fills) && LegalFills(old(View()), fills)
      ensures View() == TakeFills(old(View()), fills) && FillsUnder(lightspeed, world, fills)
    {
      hide Shape, PK.AllValid, PK.Views, BF.BitSet, LegalPick, Inv, WritesFit, MappingBounds, Mapped, Flat, Sound,
        Lengths, FieldsValid, FieldSets, Matched, LegalFill, LegalFills, TakeFills, TakePicks, RefillsAll,
        FillUnder, FillsUnder;
      ghost var s := View();
      fills := [];
      NoFills(s);
      FillsUnderStart(lightspeed, world);
      if e.Choked? || e.Disconnected? {
        fills := RefillAllPeers(world);
      } else if !e.Connected? {
        ghost var fill := FillPipeline(e.addr, world);
        FillsThen(s, [], fill);
        FillsUnderMore(lightspeed, world, [], fill);
        fills := [] + [fill];
      }
    }

    /** One turn of the event loop on a peer's event. */
    method Handle(e: Event, world: World) returns (ghost fills: seq<Fill>)
      requires Valid() && WellSized(tor, e) && !picker.IsComplete() && !e.Dialed? && !e.Written?
      modifies this`peers, this`pending, this`bitfields, this`writes, this`verified, picker`availability,
        picker`inProgress, picker`verifiedCount, picker`mode, picker.have, picker.inProgress.Values, bitfields.Values
      ensures Valid() && fresh(picker.inProgress.Values - old(picker.inProgress.Values))
      ensures fresh(bitfields.Values - old(bitfields.Values))
      ensures Legal(tor, old(View()), e, fills) && FillsUnder(lightspeed, world, fills)
      ensures View() == Step(tor, old(View()), e, fills)
    {
      hide Shape, PK.AllValid, PK.Views, BF.BitSet, LegalPick, Inv, WritesFit, MappingBounds, Mapped, Flat, Sound,
        Lengths, FieldsValid, FieldSets, Matched, Base, LegalFills, TakeFills, RefillsFor, Possible, FillsUnder;
      EventIsPossible(e);
      Apply(e);
      fills := Refill(e, world);
    }

    /**
     * One turn of the event loop. A peer's event is acted on as long as a piece is missing, a connection attempt
     * also needs a peer not known yet, and a write that has been issued can be settled at any time.
     */
    method Turn(e: Event, world: World) returns (acted: bool, ghost fills: seq<Fill>)
      requires Valid() && WellSized(tor, e)
      modifies this`peers, this`pending, this`bitfields, this`writes, this`verified, picker`availability,
        picker`inProgress, picker`verifiedCount, picker`mode, picker.have, picker.inProgress.Values, bitfields.Values,
        this`stored, this`spoiled, disk
      ensures Valid() && fresh(picker.inProgress.Values - old(picker.inProgress.Values))
      ensures fresh(bitfields.Values - old(bitfields.Values))
      ensures !e.Dialed? && !e.Written? ==> (acted <==> Missing(old(View()).picker) != {})
      ensures e.Dialed? ==> (acted <==> Missing(old(View()).picker) != {} && e.addr !in old(peers))
      ensures e.Written? ==> (acted <==> (e.index < |old(writes)|
                              && (e.outcome.Failed? ==> |e.outcome.left| == |old(writes)[e.index].data|)))
      ensures !acted ==> View() == old(View())
      ensures acted ==> Legal(tor, old(View()), e, fills) && FillsUnder(lightspeed, world, fills)
      ensures acted ==> View() == Step(tor, old(View()), e, fills)
    {
      hide Shape, PK.AllValid, PK.Views, BF.BitSet, LegalPick, Inv, WritesFit, MappingBounds, Mapped, Flat, Sound,
        Lengths, FieldsValid, FieldSets, Matched, Base, LegalFills, TakeFills, Legal, Step, Missing;
      ghost var s := View();
      picker.CompleteIffNoneMissing();
      acted, fills := false, [];
      match e {
        case Dialed(addr) =>
          if addr !in peers && !picker.IsComplete() {
            Dial(addr);
            acted := true;
            QuietStep(tor, s, e);
          }
        case Written(index, outcome) =>
          if index < |writes| && (outcome.Succeeded? || |outcome.left| == |writes[index].data|) {
            FinishWrite(index, outcome);
            acted := true;
            QuietStep(tor, s, e);
          }
        case _ =>
          if !picker.IsComplete() {
            fills := Handle(e, world);
            acted := true;
          }
      }
    }

    /** The event loop, and the flush of the issued writes after it, over whatever the world sends. */
    method Run(moments: seq<Moment>, ghost p: Picker, ghost disk0: Bytes) returns (ghost acts: seq<Act>)
      requires Valid() && View() == Opened(p, disk0) && Starts(tor, p, disk0) && Matched(p)
      requires forall k :: 0 <= k < |moments| ==> WellSized(tor, moments[k].event)
      modifies this`peers, this`pending, this`bitfields, this`writes, this`verified, picker`availability,
        picker`inProgress, picker`verifiedCount, picker`mode, picker.have, picker.inProgress.Values, bitfields.Values,
        this`stored, this`spoiled, disk
      ensures Valid() && LegalRun(tor, Opened(p, disk0), acts)
      ensures Followed(tor, lightspeed, Opened(p, disk0), moments, acts)
      ensures View() == SessionSpec.Run(tor, Opened(p, disk0), acts)
      ensures Safe(tor, p.have, disk0, View())
      ensures picker.IsComplete() && writes == [] && spoiled == {} ==>
        forall i: nat :: i < tor.n ==> Verifies(tor, i, OnDisk(tor, Flat(disk.files), i))
    {
      hide Shape, PK.AllValid, PK.Views, BF.BitSet, LegalPick, Inv, WritesFit, MappingBounds, Mapped, Flat, Sound,
        Lengths, FieldsValid, FieldSets, Matched, Legal, Step, Starts, Safe, OnDisk, Verifies, LegalRun, SessionSpec.Run,
        Missing, Followed, CanHappen, FillsUnder;
      acts := [];
      RunStarts(tor, Opened(p, disk0));
      NothingFollowed(tor, lightspeed, Opened(p, disk0));
      assert moments[..0] == [];
      for k := 0 to |moments|
        invariant Valid() && fresh(picker.inProgress.Values - old(picker.inProgress.Values))
        invariant fresh(bitfields.Values - old(bitfields.Values))
        invariant LegalRun(tor, Opened(p, disk0), acts) && View() == SessionSpec.Run(tor, Opened(p, disk0), acts)
        invariant Followed(tor, lightspeed, Opened(p, disk0), moments[..k], acts)
      {
        ghost var s := View();
        CanHappenIs(tor, s, moments[k].event);
        var acted;
        ghost var fills;
        acted, fills := Turn(moments[k].event, moments[k].world);
        assert moments[..k + 1] == moments[..k] + [moments[k]];
        FollowedOn(tor, lightspeed, Opened(p, disk0), moments[..k], acts, moments[k], fills);
        if acted {
          RunGoesOn(tor, Opened(p, disk0), acts, Act(moments[k].event, fills));
          acts := acts + [Act(moments[k].event, fills)];
        }
      }
      assert moments[..|moments|] == moments;
      RunKeepsSafe(tor, p, disk0, acts);
      picker.CompleteIffNoneMissing();
      if picker.IsComplete() && writes == [] && spoiled == {} {
        CompleteIsOnDisk(tor, p, disk0, acts);
      }
    }

    lemma EventIsPossible(e: Event)
      requires Valid() && WellSized(tor, e) && !picker.IsComplete() && !e.Dialed? && !e.Written?
      ensures Possible(tor, View(), e)
    {
      hide Shape, PK.AllValid, PK.Views, BF.BitSet, LegalPick, Inv, WritesFit, MappingBounds, Mapped, Flat, Sound,
        Lengths, FieldsValid, FieldSets, Matched, Missing;
      picker.CompleteIffNoneMissing();
    }
  }

  /**
   * What the rest of the world does in a moment: how fast each peer has been, and which of the requests
   * tried in it fit into each peer's channel, counted from the first.
   */
  datatype World = World(throughput: SocketAddr -> real, fits: (SocketAddr, nat) -> bool)

  datatype Moment = Moment(event: Event, world: World)

  /** Requests go out exactly as they fit. */
  ghost predicate SentUnder(world: World, addr: SocketAddr, picks: seq<Pick>) {
    forall k :: 0 <= k < |picks| ==> picks[k].sent == world.fits(addr, k)
  }

  /** The fill has the depth of its peer's throughput. */
  ghost predicate FillUnder(lightspeed: bool, world: World, f: Fill) {
    f.depth == MaxPipeline(lightspeed, world.throughput(f.addr)) && SentUnder(world, f.addr, f.picks)
  }

  ghost predicate FillsUnder(lightspeed: bool, world: World, fills: seq<Fill>) {
    forall k :: 0 <= k < |fills| ==> FillUnder(lightspeed, world, fills[k])
  }

  lemma SentUnderStart(world: World, addr: SocketAddr)
    ensures SentUnder(world, addr, [])
  {
  }

  lemma SentUnderMore(world: World, addr: SocketAddr, picks: seq<Pick>, more: seq<Pick>)
    requires SentUnder(world, addr, picks) && |more| <= 1
    requires more != [] ==> more[0].sent == world.fits(addr, |picks|)
    ensures SentUnder(world, addr, picks + more)
  {
  }

  lemma FillsUnderStart(lightspeed: bool, world: World)
    ensures FillsUnder(lightspeed, world, [])
  {
  }

  lemma FillsUnderMore(lightspeed: bool, world: World, fills: seq<Fill>, f: Fill)
    requires FillsUnder(lightspeed, world, fills) && FillUnder(lightspeed, world, f)
    ensures FillsUnder(lightspeed, world, fills + [f])
  {
    hide FillUnder;
  }

  /** A bitfield message carries a bit for every piece. */
  predicate WellSized(tor: Torrent, e: Event) {
    e.BitfieldReceived? ==> BF.ByteLength(tor.n) <= |e.bytes|
  }

  /** Events the loop acts on: see `Turn`. */
  ghost predicate CanHappen(s: Session, e: Event) {
    match e
    case Written(index, outcome) =>
      index < |s.writes| && (outcome.Failed? ==> |outcome.left| == |s.writes[index].data|)
    case Dialed(addr) => Missing(s.picker) != {} && addr !in s.peers
    case _ => Missing(s.picker) != {}
  }

  lemma CanHappenIs(tor: Torrent, s: Session, e: Event)
    ensures !e.Dialed? && !e.Written? ==> (CanHappen(s, e) <==> Missing(s.picker) != {})
    ensures e.Dialed? ==> (CanHappen(s, e) <==> Missing(s.picker) != {} && e.addr !in s.peers)
    ensures e.Written? ==> (CanHappen(s, e) <==> (e.index < |s.writes|
                              && (e.outcome.Failed? ==> |e.outcome.left| == |s.writes[e.index].data|)))
  {
    hide Missing;
  }

  /**
   * The acts are the moments in order, each with its own event and under its own world, less those whose
   * event could not happen in the state it met.
   */
  ghost predicate Followed(tor: Torrent, lightspeed: bool, s: Session, moments: seq<Moment>, acts: seq<Act>)
    requires Matched(s.picker)
    decreases |moments|
  {
    if moments == [] then acts == []
    else
      var front, last := moments[..|moments| - 1], moments[|moments| - 1];
      || (&& acts != [] && Followed(tor, lightspeed, s, front, acts[..|acts| - 1])
          && CanHappen(SessionSpec.Run(tor, s, acts[..|acts| - 1]), last.event)
          && acts[|acts| - 1].event == last.event
          && FillsUnder(lightspeed, last.world, acts[|acts| - 1].fills))
      || (Followed(tor, lightspeed, s, front, acts) && !CanHappen(SessionSpec.Run(tor, s, acts), last.event))
  }

  lemma NothingFollowed(tor: Torrent, lightspeed: bool, s: Session)
    requires Matched(s.picker)
    ensures Followed(tor, lightspeed, s, [], [])
  {
  }

  lemma FollowedOn(tor: Torrent, lightspeed: bool, s: Session, moments: seq<Moment>, acts: seq<Act>, m: Moment,
                   fills: seq<Fill>)
    requires Matched(s.picker) && Followed(tor, lightspeed, s, moments, acts)
    ensures var t := SessionSpec.Run(tor, s, acts);
      && (!CanHappen(t, m.event) ==> Followed(tor, lightspeed, s, moments + [m], acts))
      && (CanHappen(t, m.event) && FillsUnder(lightspeed, m.world, fills) ==>
            Followed(tor, lightspeed, s, moments + [m], acts + [Act(m.event, fills)]))
  {
    hide Matched, CanHappen, FillsUnder, SessionSpec.Run;
    var more := acts + [Act(m.event, fills)];
    assert (moments + [m])[..|moments|] == moments && more[..|acts|] == acts;
  }

  lemma QuietStep(tor: Torrent, s: Session, e: Event)
    requires Matched(s.picker) && Possible(tor, s, e) && (e.Dialed? || e.Written?)
    ensures Legal(tor, s, e, []) && Step(tor, s, e, []) == Base(tor, s, e)
  {
    hide Base, Matched;
  }

  lemma RunStarts(tor: Torrent, s: Session)
    requires Matched(s.picker)
    ensures LegalRun(tor, s, []) && SessionSpec.Run(tor, s, []) == s
  {
  }

  lemma RunGoesOn(tor: Torrent, s: Session, acts: seq<Act>, act: Act)
    requires Matched(s.picker) && LegalRun(tor, s, acts)
    requires Legal(tor, SessionSpec.Run(tor, s, acts), act.event, act.fills)
    ensures LegalRun(tor, s, acts + [act])
    ensures SessionSpec.Run(tor, s, acts + [act])
         == Step(tor, SessionSpec.Run(tor, s, acts), act.event, act.fills)
  {
    hide Matched, Legal, Step;
    assert (acts + [act])[..|acts|] == acts;
  }

  lemma FewerFit(tor: Torrent, writes: seq<Write>, index: nat)
    requires WritesFit(tor, writes) && index < |writes|
    ensures WritesFit(tor, writes[..index] + writes[index + 1..])
  {
    hide LengthIn;
  }

  lemma OneFits(tor: Torrent, p: Picker, writes: seq<Write>, index: nat)
    requires Sound(tor, p) && WritesFit(tor, writes) && index < |writes|
    ensures var w := writes[index];
      && w.piece < tor.n && PieceStart(tor.pieceLength, w.piece) < tor.total
      && |w.data| == PieceEnd(tor.pieceLength, tor.total, w.piece) - PieceStart(tor.pieceLength, w.piece)
  {
    hide Inv;
    SoundIs(tor, p);
    hide Tiled;
    PieceBounds(tor.n, tor.pieceLength, tor.total, writes[index].piece);
  }

  lemma DiskAfterIs(tor: Torrent, disk: Bytes, w: Write, outcome: WriteOutcome)
    requires outcome.Failed? ==> |outcome.left| == |w.data|
    ensures var data := if outcome.Succeeded? then w.data else outcome.left;
      PieceStart(tor.pieceLength, w.piece) + |data| <= |disk| ==>
        DiskAfter(tor, disk, w, outcome) == WritePieceFlat(disk, tor.pieceLength, w.piece, data)
  {
  }

  lemma OneMoreFits(tor: Torrent, writes: seq<Write>, piece: nat, bytes: Bytes)
    requires WritesFit(tor, writes) && piece < tor.n && |bytes| == LengthIn(tor, piece)
    ensures WritesFit(tor, writes + [Write(piece, bytes)])
  {
  }

  function WithRequest(s: Session, addr: SocketAddr, block: BlockRequest): Session
    requires addr in s.peers
  {
    s.(peers := s.peers[addr := s.peers[addr].(outstanding := s.peers[addr].outstanding + 1)],
       pending := s.pending[addr := PendingOf(s, addr) + [block]])
  }

  lemma PickedSound(tor: Torrent, p: Picker, peer: set<nat>, i: nat, block: Option<BlockRequest>, q: Picker)
    requires Sound(tor, p) && LegalPick(p, peer, Some(i)) && PK.PickedBlock(p, i, block, q)
    ensures Sound(tor, q)
  {
    hide Inv, LegalPick, AfterPick, Requested, Pickable;
    PickKeepsInv(p, peer, i);
    PickParams(p, i);
  }

  lemma PickTaken(s: Session, addr: SocketAddr, pick: Pick, block: Option<BlockRequest>, q: Picker)
    requires Matched(s.picker) && PK.PickedBlock(s.picker, pick.piece, block, q) && addr in s.peers
    ensures block.Some?
    ensures TakePick(s, addr, pick)
         == if pick.sent then WithRequest(s.(picker := q), addr, block.value) else s.(picker := q)
  {
    hide AfterPick, Requested;
  }

  /**
   * The start of `run`: a session over pre-allocated files that adopts what they already hold, of which just
   * the pieces in `readable` can be read.
   */
  method StartSession(info: Info, sha1: Bytes -> Hash, disk: Disk, lightspeed: bool, hasExistingData: bool,
                      readable: set<nat>) returns (session: TorrentSession)
    requires MappingBounds(info.files.Lengths(), info.totalLength) && 0 < info.pieceLength <= MAX_PIECE_LENGTH
    requires Tiled(|info.pieces|, info.pieceLength, info.totalLength) && |info.pieces| <= MAX_PIECES
    requires Lengths(disk.files) == info.files.Lengths()
    ensures fresh(session) && session.Valid() && session.tor == TorrentOf(info, sha1) && session.disk == disk
    ensures session.lightspeed == lightspeed
    ensures var p := Adopt(session.tor, Flat(disk.files), if hasExistingData then readable else {}, |info.pieces|);
      session.View() == Opened(p, Flat(disk.files)) && Starts(session.tor, p, Flat(disk.files))
    ensures forall i: nat :: i in session.View().picker.have <==>
      (hasExistingData && i < |info.pieces| && i in readable
       && sha1(OnDisk(TorrentOf(info, sha1), Flat(disk.files), i)) == info.pieces[i])
  {
    hide Shape, PK.AllValid, PK.Views, BF.BitSet, Inv, Tiled, Mapped, Flat, Lengths, Sum, Matched, Adopt, OnDisk,
      MappingBounds;
    var mapping := new FileMapping(info);
    var picker := new PK.PiecePicker(|info.pieces|, info.pieceLength, info.totalLength);
    ghost var tor, flat := TorrentOf(info, sha1), Flat(disk.files);
    AdoptNothing(tor, flat, |info.pieces|);
    if hasExistingData {
      var adopted := VerifyOnDisk(disk, mapping, info, sha1, picker, readable);
    }
    FilesCover(info.files.Lengths(), info.totalLength, disk.files);
    AdoptedStarts(tor, flat, if hasExistingData then readable else {});
    session := new TorrentSession(TorrentOf(info, sha1), picker, mapping, disk, lightspeed);
  }

  lemma {:induction false} AdoptNothing(tor: Torrent, flat: Bytes, k: nat)
    ensures Adopt(tor, flat, {}, k) == NewPicker(tor.n, tor.pieceLength, tor.total)
  {
    if k > 0 {
      AdoptNothing(tor, flat, k - 1);
    }
  }
}
