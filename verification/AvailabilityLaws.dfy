/** What the availability counters say about the connected peers' bitfields. */
module AvailabilityLaws {
  import opened ByteStrings
  import opened Address
  import opened PickerSpec
  import opened PickerLaws
  import opened SessionSpec
  import opened SessionLaws

  type Fields = map<SocketAddr, set<nat>>

  /** The peers whose bitfield holds piece i. */
  function Holders(fields: Fields, i: nat): set<SocketAddr> {
    set a | a in fields && i in fields[a]
  }

  lemma HoldersPut(fields: Fields, addr: SocketAddr, pieces: set<nat>, i: nat)
    ensures Holders(fields[addr := pieces], i)
         == if i in pieces then Holders(fields, i) + {addr} else Holders(fields, i) - {addr}
    ensures addr in Holders(fields, i) <==> addr in fields && i in fields[addr]
  {
  }

  function Held(fields: Fields, addr: SocketAddr, i: nat): nat {
    if addr in fields && i in fields[addr] then 1 else 0
  }

  lemma PutSize(fields: Fields, addr: SocketAddr, pieces: set<nat>, i: nat)
    ensures |Holders(fields[addr := pieces], i)|
         == |Holders(fields, i)| - Held(fields, addr, i) + if i in pieces then 1 else 0
  {
    HoldersPut(fields, addr, pieces, i);
    hide Holders;
    assert |Holders(fields, i) + {addr}| == |Holders(fields, i)| - Held(fields, addr, i) + 1;
  }

  lemma DropSize(fields: Fields, addr: SocketAddr, i: nat)
    ensures |Holders(fields - {addr}, i)| == |Holders(fields, i)| - Held(fields, addr, i)
  {
    HoldersDrop(fields, addr, i);
  }

  lemma HoldersDrop(fields: Fields, addr: SocketAddr, i: nat)
    ensures Holders(fields - {addr}, i) == Holders(fields, i) - {addr}
    ensures addr in Holders(fields, i) <==> addr in fields && i in fields[addr]
  {
  }

  lemma HoldersBound(fields: Fields, i: nat)
    ensures |Holders(fields, i)| <= |fields|
  {
    SubsetOf(Holders(fields, i), fields.Keys);
    assert |fields.Keys| == |fields|;
  }

  lemma SubsetOf(a: set<SocketAddr>, b: set<SocketAddr>)
    requires a <= b
    ensures |a| <= |b|
  {
    assert a + (b - a) == b;
  }

  // ------------------------------------------------- what an event does to them

  /** The bitfields after an event. */
  function FieldsAfter(tor: Torrent, fields: Fields, e: Event): Fields {
    match e
    case Connected(addr) => fields[addr := {}]
    case BitfieldReceived(addr, bytes) => fields[addr := Announced(tor, bytes)]
    case HaveAll(addr) => fields[addr := Range(tor.n)]
    case Have(addr, piece) =>
      if addr in fields && piece < tor.n then fields[addr := fields[addr] + {piece}] else fields
    case Disconnected(addr) => fields - {addr}
    case _ => fields
  }

  /** The availability counter of piece i after an event. */
  function CountAfter(tor: Torrent, fields: Fields, e: Event, i: nat, count: nat): nat {
    match e
    case BitfieldReceived(_, bytes) => if i in Announced(tor, bytes) then SaturatingInc(count) else count
    case HaveAll(_) => if i < tor.n then SaturatingInc(count) else count
    case Have(_, piece) => if i == piece then SaturatingInc(count) else count
    case Disconnected(addr) => if addr in fields && i in fields[addr] then SaturatingDec(count) else count
    case _ => count
  }

  lemma StepCounts(tor: Torrent, s: Session, e: Event, fills: seq<Fill>)
    requires Matched(s.picker) && Sound(tor, s.picker) && Legal(tor, s, e, fills)
    ensures var t := Step(tor, s, e, fills);
      && t.bitfields == FieldsAfter(tor, s.bitfields, e)
      && |t.picker.availability| == |s.picker.availability| == tor.n
      && forall i :: 0 <= i < tor.n ==>
           t.picker.availability[i] == CountAfter(tor, s.bitfields, e, i, s.picker.availability[i])
  {
    hide Sound, Matched, Inv, Shape, LegalFills, Step;
    SoundIs(tor, s.picker);
    EventKeeps(tor, s, e);
    FillsKeep(tor, Base(tor, s, e), fills);
    BaseCounts(tor, s, e);
    hide Base;
    assert Step(tor, s, e, fills) == TakeFills(Base(tor, s, e), fills) by {
      StepIs(tor, s, e, fills);
    }
  }

  lemma StepIs(tor: Torrent, s: Session, e: Event, fills: seq<Fill>)
    requires Matched(s.picker)
    ensures Step(tor, s, e, fills) == TakeFills(Base(tor, s, e), fills)
  {
  }

  lemma BaseCounts(tor: Torrent, s: Session, e: Event)
    requires Matched(s.picker) && Sound(tor, s.picker) && |s.picker.availability| == tor.n
    ensures var t := Base(tor, s, e);
      && t.bitfields == FieldsAfter(tor, s.bitfields, e)
      && |t.picker.availability| == tor.n
      && forall i :: 0 <= i < tor.n ==>
           t.picker.availability[i] == CountAfter(tor, s.bitfields, e, i, s.picker.availability[i])
  {
    hide Sound, Matched, AcceptBlock, Release, BeforeBlock, DiskAfter, SaturatingInc, SaturatingDec;
    if e.BlockArrived? || e.Choked? {
      hide Inv, Shape;
      OtherCounts(tor, s, e);
    } else if e.Disconnected? {
      ReleaseKeeps(tor, s, e.addr);
    }
  }

  lemma OtherCounts(tor: Torrent, s: Session, e: Event)
    requires Matched(s.picker) && Sound(tor, s.picker) && (e.BlockArrived? || e.Choked?)
    ensures Base(tor, s, e).bitfields == s.bitfields
    ensures Base(tor, s, e).picker.availability == s.picker.availability
  {
    hide Sound, Matched, AcceptBlock, Release, BeforeBlock, DiskAfter, Checked, Accepted;
    if e.Choked? {
      ReleaseKeeps(tor, s, e.addr);
    } else {
      AcceptKeeps(tor, BeforeBlock(s, e.addr, e.piece, e.offset), e.piece, e.offset, e.data);
      BeforeBlockFields(s, e.addr, e.piece, e.offset);
    }
  }

  lemma BeforeBlockFields(s: Session, addr: SocketAddr, piece: nat, offset: nat)
    ensures BeforeBlock(s, addr, piece, offset).bitfields == s.bitfields
  {
  }

  // --------------------------------------------------------------- invariants

  /** Every counter is at least the number of peers holding the piece. */
  ghost predicate Covered(tor: Torrent, fields: Fields, counts: seq<nat>) {
    |counts| == tor.n && forall i :: 0 <= i < tor.n ==> |Holders(fields, i)| <= counts[i]
  }

  /** Every counter is that number. */
  ghost predicate Exact(tor: Torrent, fields: Fields, counts: seq<nat>) {
    |counts| == tor.n && forall i :: 0 <= i < tor.n ==> |Holders(fields, i)| == counts[i]
  }

  ghost predicate FieldsInRange(tor: Torrent, fields: Fields) {
    forall a, i :: a in fields && i in fields[a] ==> i < tor.n
  }

  /** The pieces a peer is known to have. */
  function Known(fields: Fields, addr: SocketAddr): set<nat> {
    if addr in fields then fields[addr] else {}
  }

  /**
   * The event announces nothing twice: a bitfield comes before anything else the peer announces, a piece is
   * announced once, by a peer that is connected, and a peer connects anew with nothing announced.
   */
  predicate Fresh(tor: Torrent, fields: Fields, e: Event) {
    match e
    case Connected(addr) => Known(fields, addr) == {}
    case BitfieldReceived(addr, _) => Known(fields, addr) == {}
    case HaveAll(addr) => Known(fields, addr) == {}
    case Have(addr, piece) => piece < tor.n ==> addr in fields && piece !in fields[addr]
    case _ => true
  }

  lemma CountBetween(tor: Torrent, fields: Fields, e: Event, i: nat, count: nat)
    requires i < tor.n && |FieldsAfter(tor, fields, e)| <= U16_MAX
    requires |Holders(fields, i)| <= count <= U16_MAX
    ensures |Holders(FieldsAfter(tor, fields, e), i)| <= CountAfter(tor, fields, e, i, count)
  {
    hide Holders;
    HoldersBound(FieldsAfter(tor, fields, e), i);
    match e
    case Connected(addr) => PutSize(fields, addr, {}, i);
    case BitfieldReceived(addr, bytes) => PutSize(fields, addr, Announced(tor, bytes), i);
    case HaveAll(addr) => PutSize(fields, addr, Range(tor.n), i);
    case Have(addr, piece) =>
      if addr in fields {
        PutSize(fields, addr, fields[addr] + {piece}, i);
      }
    case Disconnected(addr) => DropSize(fields, addr, i);
    case _ =>
  }

  /** On a counter that is right, a fresh announcement leaves it right. */
  lemma CountStaysExact(tor: Torrent, fields: Fields, e: Event, i: nat)
    requires i < tor.n && |FieldsAfter(tor, fields, e)| <= U16_MAX && Fresh(tor, fields, e)
    ensures |Holders(FieldsAfter(tor, fields, e), i)| == CountAfter(tor, fields, e, i, |Holders(fields, i)|)
  {
    hide Holders;
    HoldersBound(FieldsAfter(tor, fields, e), i);
    match e
    case Connected(addr) => PutSize(fields, addr, {}, i);
    case BitfieldReceived(addr, bytes) => PutSize(fields, addr, Announced(tor, bytes), i);
    case HaveAll(addr) => PutSize(fields, addr, Range(tor.n), i);
    case Have(addr, piece) =>
      if addr in fields {
        PutSize(fields, addr, fields[addr] + {piece}, i);
      }
    case Disconnected(addr) => DropSize(fields, addr, i);
    case _ =>
  }

  lemma CountGoesWrong(tor: Torrent, fields: Fields, e: Event) returns (i: nat)
    requires FieldsInRange(tor, fields) && |fields| < U16_MAX && !Fresh(tor, fields, e)
    ensures i < tor.n
    ensures |Holders(FieldsAfter(tor, fields, e), i)| != CountAfter(tor, fields, e, i, |Holders(fields, i)|)
  {
    hide Holders;
    match e
    case Connected(addr) =>
      i :| i in Known(fields, addr);
      PutSize(fields, addr, {}, i);
    case BitfieldReceived(addr, bytes) =>
      i :| i in Known(fields, addr);
      PutSize(fields, addr, Announced(tor, bytes), i);
      HoldersBound(fields, i);
    case HaveAll(addr) =>
      i :| i in Known(fields, addr);
      PutSize(fields, addr, Range(tor.n), i);
      HoldersBound(fields, i);
    case Have(addr, piece) =>
      i := piece;
      if addr in fields {
        PutSize(fields, addr, fields[addr] + {piece}, i);
      }
      HoldersBound(fields, i);
  }

  lemma StepCovers(tor: Torrent, s: Session, e: Event, fills: seq<Fill>)
    requires Matched(s.picker) && Sound(tor, s.picker) && Legal(tor, s, e, fills)
    requires Covered(tor, s.bitfields, s.picker.availability) && FieldsInRange(tor, s.bitfields)
    requires |Step(tor, s, e, fills).bitfields| <= U16_MAX
    ensures var t := Step(tor, s, e, fills);
      Covered(tor, t.bitfields, t.picker.availability) && FieldsInRange(tor, t.bitfields)
  {
    hide Matched, Legal, Step, Inv, CountAfter, FieldsAfter, Holders;
    StepCounts(tor, s, e, fills);
    CountsAreU16(s.picker);
    LegalInRange(tor, s, e, fills);
    var t := Step(tor, s, e, fills);
    forall i | 0 <= i < tor.n
      ensures |Holders(t.bitfields, i)| <= t.picker.availability[i]
    {
      CountBetween(tor, s.bitfields, e, i, s.picker.availability[i]);
    }
  }

  lemma StartCovers(tor: Torrent, p: Picker, disk: Bytes)
    requires Sound(tor, p)
    ensures Covered(tor, Opened(p, disk).bitfields, p.availability) && FieldsInRange(tor, Opened(p, disk).bitfields)
  {
    hide Sound, Inv;
    SoundIs(tor, p);
  }

  /** In every reachable state with at most 65535 peers, no counter is below the number of peers that hold its piece. */
  lemma {:induction false} RunCovers(tor: Torrent, p: Picker, disk: Bytes, acts: seq<Act>)
    requires Starts(tor, p, disk) && Matched(p) && LegalRun(tor, Opened(p, disk), acts)
    requires FewPeers(tor, p, disk, acts)
    ensures var s := Run(tor, Opened(p, disk), acts);
      Covered(tor, s.bitfields, s.picker.availability) && FieldsInRange(tor, s.bitfields)
    decreases |acts|
  {
    hide Matched, Legal, Step, Starts, LegalRun, Sound, FewPeers, Covered, FieldsInRange, Books, DiskAgrees,
      Pipelined;
    if acts == [] {
      RunKeepsSafe(tor, p, disk, []);
      StartCovers(tor, p, disk);
    } else {
      var front, act := acts[..|acts| - 1], acts[|acts| - 1];
      LegalLast(tor, Opened(p, disk), acts);
      FewBefore(tor, p, disk, acts);
      RunCovers(tor, p, disk, front);
      RunKeepsSafe(tor, p, disk, front);
      StepCovers(tor, Run(tor, Opened(p, disk), front), act.event, act.fills);
    }
  }

  lemma CountsAreU16(p: Picker)
    requires Inv(p)
    ensures forall i :: 0 <= i < |p.availability| ==> p.availability[i] <= U16_MAX
  {
  }

  lemma LegalInRange(tor: Torrent, s: Session, e: Event, fills: seq<Fill>)
    requires Matched(s.picker) && Legal(tor, s, e, fills) && FieldsInRange(tor, s.bitfields)
    ensures FieldsInRange(tor, FieldsAfter(tor, s.bitfields, e))
  {
    hide LegalFills, Base;
  }

  /** At no point of the run are more than 65535 peers connected. */
  ghost predicate FewPeers(tor: Torrent, p: Picker, disk: Bytes, acts: seq<Act>)
    requires Matched(p)
  {
    forall k :: 0 <= k <= |acts| ==> |Run(tor, Opened(p, disk), acts[..k]).bitfields| <= U16_MAX
  }

  lemma FewBefore(tor: Torrent, p: Picker, disk: Bytes, acts: seq<Act>)
    requires Matched(p) && acts != [] && FewPeers(tor, p, disk, acts)
    ensures FewPeers(tor, p, disk, acts[..|acts| - 1])
    ensures |Run(tor, Opened(p, disk), acts).bitfields| <= U16_MAX
  {
    hide Run;
    var front := acts[..|acts| - 1];
    forall k | 0 <= k <= |front|
      ensures |Run(tor, Opened(p, disk), front[..k]).bitfields| <= U16_MAX
    {
      assert front[..k] == acts[..k];
    }
    assert acts[..|acts|] == acts;
  }

  lemma FreshKeepsExact(tor: Torrent, s: Session, e: Event, fills: seq<Fill>)
    requires Matched(s.picker) && Sound(tor, s.picker) && Legal(tor, s, e, fills)
    requires Exact(tor, s.bitfields, s.picker.availability) && Fresh(tor, s.bitfields, e)
    requires |Step(tor, s, e, fills).bitfields| <= U16_MAX
    ensures var t := Step(tor, s, e, fills); Exact(tor, t.bitfields, t.picker.availability)
  {
    hide Matched, Legal, Step, Inv, CountAfter, FieldsAfter, Holders, Fresh, Sound;
    StepCounts(tor, s, e, fills);
    var t := Step(tor, s, e, fills);
    forall i | 0 <= i < tor.n
      ensures |Holders(t.bitfields, i)| == t.picker.availability[i]
    {
      CountStaysExact(tor, s.bitfields, e, i);
    }
  }

  /** No peer announces a piece twice in the run. */
  ghost predicate FreshRun(tor: Torrent, s: Session, acts: seq<Act>)
    requires Matched(s.picker)
    decreases |acts|
  {
    acts == []
    || (FreshRun(tor, s, acts[..|acts| - 1])
        && Fresh(tor, Run(tor, s, acts[..|acts| - 1]).bitfields, acts[|acts| - 1].event))
  }

  /** If nobody announces a piece twice, every counter is exactly the number of peers that hold its piece. */
  lemma {:induction false} RunIsExact(tor: Torrent, p: Picker, disk: Bytes, acts: seq<Act>)
    requires Starts(tor, p, disk) && Matched(p) && LegalRun(tor, Opened(p, disk), acts)
    requires FewPeers(tor, p, disk, acts) && FreshRun(tor, Opened(p, disk), acts)
    requires forall i :: 0 <= i < |p.availability| ==> p.availability[i] == 0
    ensures var s := Run(tor, Opened(p, disk), acts); Exact(tor, s.bitfields, s.picker.availability)
    decreases |acts|
  {
    hide Matched, Legal, Step, Starts, LegalRun, Sound, FewPeers, Books, DiskAgrees, Pipelined, Fresh;
    if acts == [] {
      RunKeepsSafe(tor, p, disk, []);
      SoundIs(tor, p);
    } else {
      hide Exact;
      var front, act := acts[..|acts| - 1], acts[|acts| - 1];
      LegalLast(tor, Opened(p, disk), acts);
      FewBefore(tor, p, disk, acts);
      RunIsExact(tor, p, disk, front);
      RunKeepsSafe(tor, p, disk, front);
      FreshKeepsExact(tor, Run(tor, Opened(p, disk), front), act.event, act.fills);
    }
  }

  /**
   * A step from exact counters keeps them exact if it announces nothing twice, and, with room for one more
   * peer, only then.
   */
  lemma ExactIffFresh(tor: Torrent, s: Session, e: Event, fills: seq<Fill>)
    requires Matched(s.picker) && Sound(tor, s.picker) && Legal(tor, s, e, fills)
    requires FieldsInRange(tor, s.bitfields) && Exact(tor, s.bitfields, s.picker.availability)
    requires |s.bitfields| < U16_MAX
    ensures var t := Step(tor, s, e, fills);
      Exact(tor, t.bitfields, t.picker.availability) <==> Fresh(tor, s.bitfields, e)
  {
    hide Matched, Legal, Step, Inv, Sound, CountAfter, FieldsAfter, Fresh;
    var t := Step(tor, s, e, fills);
    StepCounts(tor, s, e, fills);
    FieldsGrowByOne(tor, s.bitfields, e);
    if Fresh(tor, s.bitfields, e) {
      forall i | 0 <= i < tor.n
        ensures |Holders(t.bitfields, i)| == t.picker.availability[i]
      {
        CountStaysExact(tor, s.bitfields, e, i);
      }
    } else {
      var i := CountGoesWrong(tor, s.bitfields, e);
      assert |Holders(t.bitfields, i)| != t.picker.availability[i];
    }
  }

  lemma FieldsGrowByOne(tor: Torrent, fields: Fields, e: Event)
    ensures |FieldsAfter(tor, fields, e)| <= |fields| + 1
  {
    var after := FieldsAfter(tor, fields, e);
    assert |fields.Keys| == |fields| && |after.Keys| == |after|;
    match e
    case Connected(addr) => SubsetOf(after.Keys, fields.Keys + {addr});
    case BitfieldReceived(addr, _) => SubsetOf(after.Keys, fields.Keys + {addr});
    case HaveAll(addr) => SubsetOf(after.Keys, fields.Keys + {addr});
    case Have(addr, _) => SubsetOf(after.Keys, fields.Keys + {addr});
    case Disconnected(addr) => SubsetOf(after.Keys, fields.Keys + {addr});
    case _ =>
  }
}
