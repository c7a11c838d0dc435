/** The Kademlia routing table: 160 buckets of at most eight nodes. */
module RoutingTable {
  import opened Wrappers
  import opened Address
  import opened NodeId
  import opened Sorting

  const K: nat := 8

  datatype NodeStatus = Good | Questionable | Bad

  /** `failedQueries` is an 8-bit counter: it wraps. */
  datatype NodeEntry = NodeEntry(id: NodeId, addr: SocketAddr, status: NodeStatus, failedQueries: nat)

  datatype KBucket = KBucket(nodes: seq<NodeEntry>, replacementCache: seq<NodeEntry>)

  datatype Table = Table(own: NodeId, buckets: seq<KBucket>)

  datatype InsertResult = Inserted | Updated | BucketFull

  // ------------------------------------------------------- specification

  function FindId(nodes: seq<NodeEntry>, id: NodeId): (r: Option<nat>)
    ensures r.Some? ==> r.value < |nodes| && nodes[r.value].id == id
    ensures r.None? ==> forall i :: 0 <= i < |nodes| ==> nodes[i].id != id
  {
    if nodes == [] then None
    else if nodes[0].id == id then Some(0)
    else match FindId(nodes[1..], id)
      case Some(i) => Some(i + 1)
      case None => None
  }

  function FindBad(nodes: seq<NodeEntry>): (r: Option<nat>)
    ensures r.Some? ==> r.value < |nodes| && nodes[r.value].status == Bad
    ensures r.None? ==> forall i :: 0 <= i < |nodes| ==> nodes[i].status != Bad
  {
    if nodes == [] then None
    else if nodes[0].status == Bad then Some(0)
    else match FindBad(nodes[1..])
      case Some(i) => Some(i + 1)
      case None => None
  }

  function Fresh(id: NodeId, addr: SocketAddr): NodeEntry {
    NodeEntry(id, addr, Good, 0)
  }

  function InsertInBucket(b: KBucket, id: NodeId, addr: SocketAddr): (KBucket, InsertResult) {
    match FindId(b.nodes, id)
    case Some(i) => (b.(nodes := b.nodes[i := Fresh(id, addr)]), Updated)
    case None =>
      if |b.nodes| < K then (b.(nodes := b.nodes + [Fresh(id, addr)]), Inserted)
      else
        match FindBad(b.nodes)
        case Some(i) => (b.(nodes := b.nodes[i := Fresh(id, addr)]), Inserted)
        case None =>
          var cache := if |b.replacementCache| < K then b.replacementCache + [Fresh(id, addr)]
                       else b.replacementCache;
          (b.(replacementCache := cache), BucketFull)
  }

  predicate Shaped(t: Table) {
    |t.buckets| == NUM_BUCKETS
  }

  function Bucket(t: Table, id: NodeId): KBucket
    requires Shaped(t)
  {
    t.buckets[BucketIndex(t.own, id)]
  }

  function WithBucket(t: Table, id: NodeId, b: KBucket): Table
    requires Shaped(t)
  {
    t.(buckets := t.buckets[BucketIndex(t.own, id) := b])
  }

  function InsertOrUpdate(t: Table, id: NodeId, addr: SocketAddr): (r: (Table, InsertResult))
    requires Shaped(t)
    ensures Shaped(r.0) && r.0.own == t.own
  {
    if id == t.own then (t, Updated)
    else
      var r := InsertInBucket(Bucket(t, id), id, addr);
      (WithBucket(t, id, r.0), r.1)
  }

  function UpdateNode(t: Table, id: NodeId, f: NodeEntry -> NodeEntry): (r: Table)
    requires Shaped(t)
    ensures Shaped(r) && r.own == t.own
  {
    var b := Bucket(t, id);
    match FindId(b.nodes, id)
    case Some(i) => WithBucket(t, id, b.(nodes := b.nodes[i := f(b.nodes[i])]))
    case None => t
  }

  function AfterSuccess(n: NodeEntry): NodeEntry {
    n.(status := Good, failedQueries := 0)
  }

  function AfterFailure(n: NodeEntry): NodeEntry {
    var failed := (n.failedQueries + 1) % 0x100;
    n.(failedQueries := failed, status := if failed >= 3 then Bad else Questionable)
  }

  function MarkGood(t: Table, id: NodeId): Table
    requires Shaped(t)
  {
    UpdateNode(t, id, AfterSuccess)
  }

  function MarkFailed(t: Table, id: NodeId): Table
    requires Shaped(t)
  {
    UpdateNode(t, id, AfterFailure)
  }

  function NonBad(nodes: seq<NodeEntry>): seq<NodeEntry> {
    if nodes == [] then []
    else NonBad(nodes[..|nodes| - 1]) + if nodes[|nodes| - 1].status != Bad then [nodes[|nodes| - 1]] else []
  }

  function Collect(buckets: seq<KBucket>): seq<NodeEntry> {
    if buckets == [] then [] else Collect(buckets[..|buckets| - 1]) + NonBad(buckets[|buckets| - 1].nodes)
  }

  function Take<T>(xs: seq<T>, count: nat): seq<T> {
    if |xs| <= count then xs else xs[..count]
  }

  function DistTo(target: NodeId): NodeEntry -> nat {
    (n: NodeEntry) => Dist(n.id, target)
  }

  function ClosestNodes(t: Table, target: NodeId, count: nat): seq<NodeEntry> {
    Take(SortByKey(Collect(t.buckets), DistTo(target)), count)
  }

  // ----------------------------------------------------------- invariant

  ghost predicate BucketInv(own: NodeId, b: nat, bucket: KBucket) {
    && |bucket.nodes| <= K && |bucket.replacementCache| <= K
    && (forall i :: 0 <= i < |bucket.nodes| ==>
          bucket.nodes[i].id != own && BucketIndex(own, bucket.nodes[i].id) == b)
    && (forall i, j :: 0 <= i < j < |bucket.nodes| ==> bucket.nodes[i].id != bucket.nodes[j].id)
    && (forall i :: 0 <= i < |bucket.nodes| ==> EntryInv(bucket.nodes[i]))
  }

  ghost predicate EntryInv(n: NodeEntry) {
    && n.failedQueries < 0x100
    && (n.status == Bad <==> n.failedQueries >= 3)
    && (n.status == Good ==> n.failedQueries == 0)
  }

  ghost predicate TableInv(t: Table) {
    Shaped(t) && forall b :: 0 <= b < NUM_BUCKETS ==> BucketInv(t.own, b, t.buckets[b])
  }

  /** What the table knows about an id. */
  function Get(t: Table, id: NodeId): Option<NodeEntry>
    requires Shaped(t)
  {
    GetIn(Bucket(t, id).nodes, id)
  }

  function GetIn(nodes: seq<NodeEntry>, id: NodeId): Option<NodeEntry> {
    match FindId(nodes, id)
    case Some(i) => Some(nodes[i])
    case None => None
  }

  lemma {:induction false} FindIdAt(nodes: seq<NodeEntry>, i: nat)
    requires i < |nodes|
    requires forall j, k :: 0 <= j < k < |nodes| ==> nodes[j].id != nodes[k].id
    ensures FindId(nodes, nodes[i].id) == Some(i)
  {
    if i > 0 {
      FindIdAt(nodes[1..], i - 1);
    }
  }

  /** Overwriting one slot: the old id goes, the new one appears, every other id is untouched. */
  lemma GetInUpdate(nodes: seq<NodeEntry>, i: nat, e: NodeEntry, id: NodeId)
    requires i < |nodes|
    requires forall j, k :: 0 <= j < k < |nodes| ==> nodes[j].id != nodes[k].id
    requires forall j :: 0 <= j < |nodes| && j != i ==> nodes[j].id != e.id
    ensures GetIn(nodes[i := e], id)
         == if id == e.id then Some(e) else if id == nodes[i].id then None else GetIn(nodes, id)
  {
    var after := nodes[i := e];
    match FindId(after, id) {
      case Some(k) => FindIdAt(after, k); FindIdAt(nodes, k);
      case None =>
        assert after[i] == e;
        forall k | 0 <= k < |nodes| && k != i
          ensures nodes[k].id != id
        {
          assert after[k] == nodes[k];
        }
    }
  }

  lemma GetInAppend(nodes: seq<NodeEntry>, e: NodeEntry, id: NodeId)
    requires forall j, k :: 0 <= j < k < |nodes| ==> nodes[j].id != nodes[k].id
    requires forall j :: 0 <= j < |nodes| ==> nodes[j].id != e.id
    ensures GetIn(nodes + [e], id) == if id == e.id then Some(e) else GetIn(nodes, id)
  {
    var after := nodes + [e];
    match FindId(after, id) {
      case Some(k) =>
        FindIdAt(after, k);
        if k < |nodes| {
          FindIdAt(nodes, k);
        }
      case None =>
        assert after[|nodes|] == e;
        forall k | 0 <= k < |nodes|
          ensures nodes[k].id != id
        {
          assert after[k] == nodes[k];
        }
    }
  }

  lemma InsertInBucketInv(own: NodeId, b: nat, bucket: KBucket, id: NodeId, addr: SocketAddr)
    requires BucketInv(own, b, bucket) && id != own && BucketIndex(own, id) == b
    ensures BucketInv(own, b, InsertInBucket(bucket, id, addr).0)
  {
    hide BucketIndex;
  }

  /** Insertion within a bucket: what happens to each id, and why anything is lost. */
  lemma InsertInBucketEffect(own: NodeId, b: nat, bucket: KBucket, id: NodeId, addr: SocketAddr, o: NodeId)
    requires BucketInv(own, b, bucket)
    ensures var (after, result) := InsertInBucket(bucket, id, addr);
      var was, now := GetIn(bucket.nodes, o), GetIn(after.nodes, o);
      && (o == id ==> match result
                      case Updated => was.Some? && now == Some(Fresh(id, addr))
                      case Inserted => was.None? && now == Some(Fresh(id, addr))
                      case BucketFull => was.None? && now.None? && |bucket.nodes| == K
                                         && forall i :: 0 <= i < K ==> bucket.nodes[i].status != Bad)
      && (o != id && now != was ==>
            was.Some? && was.value.status == Bad && now.None? && result == Inserted && |bucket.nodes| == K)
  {
    hide BucketIndex;
    match FindId(bucket.nodes, id)
    case Some(i) => GetInUpdate(bucket.nodes, i, Fresh(id, addr), o);
    case None =>
      if |bucket.nodes| < K {
        GetInAppend(bucket.nodes, Fresh(id, addr), o);
      } else {
        match FindBad(bucket.nodes)
        case Some(i) =>
          GetInUpdate(bucket.nodes, i, Fresh(id, addr), o);
          FindIdAt(bucket.nodes, i);
        case None =>
      }
  }

  lemma InsertKeepsInv(t: Table, id: NodeId, addr: SocketAddr)
    requires TableInv(t)
    ensures TableInv(InsertOrUpdate(t, id, addr).0)
  {
    hide BucketIndex, InsertInBucket, BucketInv;
    if id != t.own {
      BucketIndexInRange(t.own, id);
      InsertInBucketInv(t.own, BucketIndex(t.own, id), Bucket(t, id), id, addr);
    }
  }

  /**
   * Insertion seen from the whole table. An id other than the inserted one is lost only if it was Bad,
   * in a full bucket, and made room for the new node.
   */
  lemma InsertEffect(t: Table, id: NodeId, addr: SocketAddr, o: NodeId)
    requires TableInv(t)
    ensures var (after, result) := InsertOrUpdate(t, id, addr);
      && Shaped(after)
      && (id == t.own ==> after == t)
      && (id != t.own && o == id ==>
            match result
            case Updated => Get(t, o).Some? && Get(after, o) == Some(Fresh(id, addr))
            case Inserted => Get(t, o).None? && Get(after, o) == Some(Fresh(id, addr))
            case BucketFull => Get(t, o).None? && Get(after, o).None? && |Bucket(t, id).nodes| == K
                               && forall i :: 0 <= i < K ==> Bucket(t, id).nodes[i].status != Bad)
      && (o != id && Get(after, o) != Get(t, o) ==>
            && Get(t, o).Some? && Get(t, o).value.status == Bad && Get(after, o).None?
            && result == Inserted && |Bucket(t, id).nodes| == K
            && BucketIndex(t.own, o) == BucketIndex(t.own, id))
  {
    hide BucketIndex, InsertInBucket, BucketInv, GetIn;
    BucketIndexInRange(t.own, id);
    BucketIndexInRange(t.own, o);
    if id != t.own {
      InsertInBucketEffect(t.own, BucketIndex(t.own, id), Bucket(t, id), id, addr, o);
    }
  }

  /** `mark_good` and `mark_failed` change the one node they name. */
  lemma UpdateEffect(t: Table, id: NodeId, f: NodeEntry -> NodeEntry, o: NodeId)
    requires TableInv(t)
    requires forall n :: EntryInv(n) ==> EntryInv(f(n)) && f(n).id == n.id
    ensures TableInv(UpdateNode(t, id, f))
    ensures Get(UpdateNode(t, id, f), o)
         == if o == id && Get(t, o).Some? then Some(f(Get(t, o).value)) else Get(t, o)
  {
    hide BucketIndex, EntryInv;
    BucketIndexInRange(t.own, id);
    BucketIndexInRange(t.own, o);
    var b := Bucket(t, id);
    assert BucketInv(t.own, BucketIndex(t.own, id), b);
    match FindId(b.nodes, id) {
      case Some(i) =>
        GetInUpdate(b.nodes, i, f(b.nodes[i]), o);
        FindIdAt(b.nodes, i);
      case None =>
    }
  }

  lemma MarksKeepInv(t: Table, id: NodeId)
    requires TableInv(t)
    ensures TableInv(MarkGood(t, id)) && TableInv(MarkFailed(t, id))
  {
    UpdateEffect(t, id, AfterSuccess, id);
    UpdateEffect(t, id, AfterFailure, id);
  }

  // ------------------------------------------------------ reachable tables

  datatype Op = InsertOp(id: NodeId, addr: SocketAddr) | GoodOp(id: NodeId) | FailedOp(id: NodeId)

  function EmptyTable(own: NodeId): Table {
    Table(own, seq(NUM_BUCKETS, _ => KBucket([], [])))
  }

  function ApplyOp(t: Table, op: Op): (r: Table)
    requires Shaped(t)
    ensures Shaped(r) && r.own == t.own
  {
    match op
    case InsertOp(id, addr) => InsertOrUpdate(t, id, addr).0
    case GoodOp(id) => MarkGood(t, id)
    case FailedOp(id) => MarkFailed(t, id)
  }

  function ApplyOps(t: Table, ops: seq<Op>): (r: Table)
    requires Shaped(t)
    ensures Shaped(r) && r.own == t.own
  {
    if ops == [] then t else ApplyOp(ApplyOps(t, ops[..|ops| - 1]), ops[|ops| - 1])
  }

  function RunOps(own: NodeId, ops: seq<Op>): (t: Table)
    ensures Shaped(t) && t.own == own
  {
    ApplyOps(EmptyTable(own), ops)
  }

  lemma {:induction false} ReachableInv(own: NodeId, ops: seq<Op>)
    ensures TableInv(RunOps(own, ops))
  {
    if ops != [] {
      var t := RunOps(own, ops[..|ops| - 1]);
      ReachableInv(own, ops[..|ops| - 1]);
      match ops[|ops| - 1]
      case InsertOp(id, addr) => InsertKeepsInv(t, id, addr);
      case GoodOp(id) => MarksKeepInv(t, id);
      case FailedOp(id) => MarksKeepInv(t, id);
    }
  }

  /**
   * In every reachable table bucket b holds at most eight nodes, each at an XOR distance in
   * [2^b, 2^(b+1)) of our id, and no id stands in two places.
   */
  lemma ReachableTable(own: NodeId, ops: seq<Op>, b: nat, i: nat, c: nat, j: nat)
    requires b < NUM_BUCKETS && i < |RunOps(own, ops).buckets[b].nodes|
    requires c < NUM_BUCKETS && j < |RunOps(own, ops).buckets[c].nodes|
    ensures var t := RunOps(own, ops);
      && |t.buckets[b].nodes| <= K
      && t.buckets[b].nodes[i].id != own
      && Pow2(b) <= Dist(own, t.buckets[b].nodes[i].id) < Pow2(b + 1)
      && (t.buckets[b].nodes[i].id == t.buckets[c].nodes[j].id ==> b == c && i == j)
      && (t.buckets[b].nodes[i].status == Bad <==> t.buckets[b].nodes[i].failedQueries >= 3)
  {
    hide BucketIndex, Dist, Pow2, RunOps;
    var t := RunOps(own, ops);
    ReachableInv(own, ops);
    assert BucketInv(own, b, t.buckets[b]) && BucketInv(own, c, t.buckets[c]);
    BucketIsDistanceRange(own, t.buckets[b].nodes[i].id, b);
  }

  /** How often the node failed since it last answered or was inserted. */
  function Failures(ops: seq<Op>, id: NodeId): nat {
    if ops == [] then 0
    else
      match ops[|ops| - 1]
      case InsertOp(o, _) => if o == id then 0 else Failures(ops[..|ops| - 1], id)
      case GoodOp(o) => if o == id then 0 else Failures(ops[..|ops| - 1], id)
      case FailedOp(o) => Failures(ops[..|ops| - 1], id) + if o == id then 1 else 0
  }

  /** What the table knows about a node agrees with k failures, counted in eight bits. */
  ghost predicate Counted(n: Option<NodeEntry>, k: nat) {
    n.Some? ==>
      (&& n.value.failedQueries == k % 0x100
       && (n.value.status == Bad <==> k % 0x100 >= 3)
       && (n.value.status == Good <==> k == 0))
  }

  lemma InsertCounts(t: Table, o: NodeId, addr: SocketAddr, id: NodeId, k: nat)
    requires TableInv(t) && Get(t, t.own) == None && Counted(Get(t, id), k)
    ensures Counted(Get(InsertOrUpdate(t, o, addr).0, id), if o == id then 0 else k)
  {
    InsertEffect(t, o, addr, id);
    hide TableInv, InsertOrUpdate, Get, Bucket, BucketIndex;
  }

  lemma GoodCounts(t: Table, o: NodeId, id: NodeId, k: nat)
    requires TableInv(t) && Counted(Get(t, id), k)
    ensures Counted(Get(MarkGood(t, o), id), if o == id then 0 else k)
  {
    UpdateEffect(t, o, AfterSuccess, id);
    hide TableInv, UpdateNode, Get;
  }

  lemma FailedCounts(t: Table, o: NodeId, id: NodeId, k: nat)
    requires TableInv(t) && Counted(Get(t, id), k)
    ensures Counted(Get(MarkFailed(t, o), id), k + if o == id then 1 else 0)
  {
    UpdateEffect(t, o, AfterFailure, id);
    if o == id && Get(t, id).Some? {
      OneMoreFailure(Get(t, id).value, k);
    }
    hide TableInv, UpdateNode, Get, AfterFailure, Counted;
  }

  lemma OneMoreFailure(n: NodeEntry, k: nat)
    requires Counted(Some(n), k)
    ensures Counted(Some(AfterFailure(n)), k + 1)
  {
    assert (k % 0x100 + 1) % 0x100 == (k + 1) % 0x100;
  }

  lemma {:induction false} RunCounts(own: NodeId, ops: seq<Op>, id: NodeId)
    ensures Counted(Get(RunOps(own, ops), id), Failures(ops, id))
  {
    hide Counted, Get, InsertOrUpdate, MarkGood, MarkFailed, TableInv;
    if ops == [] {
      EmptyKnowsNone(own, id);
    } else {
      var front := ops[..|ops| - 1];
      var t := RunOps(own, front);
      ReachableInv(own, front);
      RunCounts(own, front, id);
      OwnIsUnknown(own, front);
      match ops[|ops| - 1]
      case InsertOp(o, addr) => InsertCounts(t, o, addr, id, Failures(front, id));
      case GoodOp(o) => GoodCounts(t, o, id, Failures(front, id));
      case FailedOp(o) => FailedCounts(t, o, id, Failures(front, id));
    }
  }

  /**
   * A node is Good exactly when it has not failed since then, and Bad exactly when its failures, counted in
   * eight bits, are at least three.
   */
  lemma BadIff(own: NodeId, ops: seq<Op>, id: NodeId)
    requires Get(RunOps(own, ops), id).Some?
    ensures var n := Get(RunOps(own, ops), id).value;
      && n.failedQueries == Failures(ops, id) % 0x100
      && (n.status == Bad <==> Failures(ops, id) % 0x100 >= 3)
      && (n.status == Good <==> Failures(ops, id) == 0)
  {
    RunCounts(own, ops, id);
  }

  lemma EmptyKnowsNone(own: NodeId, id: NodeId)
    ensures Get(RunOps(own, []), id) == None && Counted(None, 0)
  {
    hide BucketIndex;
    BucketIndexInRange(own, id);
  }

  lemma OwnIsUnknown(own: NodeId, ops: seq<Op>)
    ensures Get(RunOps(own, ops), own) == None
  {
    hide BucketIndex, RunOps;
    var t := RunOps(own, ops);
    ReachableInv(own, ops);
    BucketIndexInRange(own, own);
    assert BucketInv(own, BucketIndex(own, own), Bucket(t, own));
  }

  // ----------------------------------------------------------- closest nodes

  lemma {:induction false} NonBadMembers(nodes: seq<NodeEntry>)
    ensures forall n :: n in NonBad(nodes) <==> n in nodes && n.status != Bad
    ensures NoDuplicates(nodes) ==> NoDuplicates(NonBad(nodes))
  {
    if nodes != [] {
      var front, last := nodes[..|nodes| - 1], nodes[|nodes| - 1];
      NonBadMembers(front);
      assert nodes == front + [last];
      if NoDuplicates(nodes) {
        forall i | 0 <= i < |front|
          ensures front[i] != last
        {
          assert nodes[i] == front[i];
        }
        forall i, j | 0 <= i < j < |front|
          ensures front[i] != front[j]
        {
          assert nodes[i] == front[i] && nodes[j] == front[j];
        }
      }
    }
  }

  ghost predicate BucketsInv(own: NodeId, buckets: seq<KBucket>) {
    forall b :: 0 <= b < |buckets| ==> BucketInv(own, b, buckets[b])
  }

  lemma {:induction false} CollectMembers(own: NodeId, buckets: seq<KBucket>, n: NodeEntry)
    requires BucketsInv(own, buckets)
    ensures n in Collect(buckets) <==>
      n.status != Bad && BucketIndex(own, n.id) < |buckets| && n in buckets[BucketIndex(own, n.id)].nodes
  {
    hide BucketIndex, NonBad;
    if buckets != [] {
      var k := |buckets| - 1;
      CollectMembers(own, buckets[..k], n);
      NonBadMembers(buckets[k].nodes);
      assert BucketInv(own, k, buckets[k]);
      if n in buckets[k].nodes {
        var i :| 0 <= i < |buckets[k].nodes| && buckets[k].nodes[i] == n;
      }
    }
  }

  lemma {:induction false} CollectDistinct(own: NodeId, buckets: seq<KBucket>)
    requires BucketsInv(own, buckets)
    ensures NoDuplicates(Collect(buckets))
  {
    hide BucketIndex, NonBad;
    if buckets != [] {
      var k := |buckets| - 1;
      CollectDistinct(own, buckets[..k]);
      assert BucketInv(own, k, buckets[k]);
      assert NoDuplicates(buckets[k].nodes);
      NonBadMembers(buckets[k].nodes);
      var front, last := Collect(buckets[..k]), NonBad(buckets[k].nodes);
      forall i, j | 0 <= i < |front| && 0 <= j < |last|
        ensures front[i] != last[j]
      {
        assert front[i] in front && last[j] in last;
        CollectMembers(own, buckets[..k], front[i]);
        var m :| 0 <= m < |buckets[k].nodes| && buckets[k].nodes[m] == last[j];
      }
      assert Collect(buckets) == front + last;
    }
  }

  lemma {:induction false} GetInMembers(nodes: seq<NodeEntry>, n: NodeEntry)
    requires forall j, k :: 0 <= j < k < |nodes| ==> nodes[j].id != nodes[k].id
    ensures GetIn(nodes, n.id) == Some(n) <==> n in nodes
  {
    if n in nodes {
      var i :| 0 <= i < |nodes| && nodes[i] == n;
      FindIdAt(nodes, i);
    }
  }

  lemma KnownNodes(t: Table, n: NodeEntry)
    requires TableInv(t)
    ensures n in Collect(t.buckets) <==> n.status != Bad && Get(t, n.id) == Some(n)
  {
    hide Collect, GetIn, BucketIndex;
    CollectMembers(t.own, t.buckets, n);
    BucketIndexInRange(t.own, n.id);
    assert BucketInv(t.own, BucketIndex(t.own, n.id), Bucket(t, n.id));
    GetInMembers(Bucket(t, n.id).nodes, n);
  }

  lemma BucketIndexInRange(own: NodeId, id: NodeId)
    ensures BucketIndex(own, id) < NUM_BUCKETS
  {
  }

  /**
   * `closest_nodes`: non-Bad nodes of the table at strictly increasing distance, at most `count`, and any
   * non-Bad node left out is farther than all of them, the list then being full.
   */
  lemma ClosestAreNearest(t: Table, target: NodeId, count: nat)
    requires TableInv(t)
    ensures var r := ClosestNodes(t, target, count);
      && |r| <= count
      && (forall i, j :: 0 <= i < j < |r| ==> Dist(r[i].id, target) < Dist(r[j].id, target))
      && (forall n :: n in r ==> n.status != Bad && Get(t, n.id) == Some(n))
      && (forall n: NodeEntry :: n.status != Bad && Get(t, n.id) == Some(n) && n !in r ==>
            |r| == count && forall m :: m in r ==> Dist(m.id, target) < Dist(n.id, target))
  {
    hide Collect, SortByKey, Get, Dist, NoDuplicates, BucketInv, Take;
    var all := Collect(t.buckets);
    var sorted := SortByKey(all, DistTo(target));
    SortSorts(all, DistTo(target));
    CollectDistinct(t.own, t.buckets);
    SortKeepsDistinct(all, DistTo(target));
    forall n: NodeEntry
      ensures n in sorted <==> n.status != Bad && Get(t, n.id) == Some(n)
    {
      KnownNodes(t, n);
    }
    SortedStrictly(t, target, sorted);
    FrontIsNearest(sorted, target, count);
  }

  lemma FrontIsNearest(sorted: seq<NodeEntry>, target: NodeId, count: nat)
    requires forall i, j :: 0 <= i < j < |sorted| ==> Dist(sorted[i].id, target) < Dist(sorted[j].id, target)
    ensures var r := Take(sorted, count);
      && |r| <= count
      && (forall i, j :: 0 <= i < j < |r| ==> Dist(r[i].id, target) < Dist(r[j].id, target))
      && (forall n :: n in r ==> n in sorted)
      && (forall n :: n in sorted && n !in r ==>
            |r| == count && forall m :: m in r ==> Dist(m.id, target) < Dist(n.id, target))
  {
    hide Dist;
    var r := Take(sorted, count);
    forall n | n in sorted && n !in r
      ensures |r| == count && forall m :: m in r ==> Dist(m.id, target) < Dist(n.id, target)
    {
      var k :| 0 <= k < |sorted| && sorted[k] == n;
      assert forall i :: 0 <= i < |r| ==> r[i] in r && r[i] == sorted[i];
      forall m | m in r
        ensures Dist(m.id, target) < Dist(n.id, target)
      {
        var i :| 0 <= i < |r| && r[i] == m;
        assert sorted[i] == m;
      }
    }
  }

  lemma SortedStrictly(t: Table, target: NodeId, sorted: seq<NodeEntry>)
    requires TableInv(t) && SortedBy(sorted, DistTo(target)) && NoDuplicates(sorted)
    requires forall n :: n in sorted ==> Get(t, n.id) == Some(n)
    ensures forall i, j :: 0 <= i < j < |sorted| ==> Dist(sorted[i].id, target) < Dist(sorted[j].id, target)
  {
    hide Get, Dist, TableInv;
    forall i, j | 0 <= i < j < |sorted|
      ensures Dist(sorted[i].id, target) < Dist(sorted[j].id, target)
    {
      var a, b := sorted[i], sorted[j];
      assert DistTo(target)(a) <= DistTo(target)(b);
      DistInjective(a.id, b.id, target);
      assert a in sorted && b in sorted;
    }
  }

  // ----------------------------------------------------------- the object

  class RoutingTable {
    const ownId: NodeId
    var buckets: seq<KBucket>

    function View(): Table
      reads this
    {
      Table(ownId, buckets)
    }

    ghost predicate Valid()
      reads this
    {
      TableInv(View())
    }

    constructor (ownId: NodeId)
      ensures Valid() && View() == EmptyTable(ownId)
    {
      this.ownId := ownId;
      buckets := seq(NUM_BUCKETS, _ => KBucket([], []));
    }

    method Insert(id: NodeId, addr: SocketAddr) returns (r: InsertResult)
      requires Valid()
      modifies this
      ensures Valid() && (View(), r) == InsertOrUpdate(old(View()), id, addr)
    {
      hide BucketIndex;
      InsertKeepsInv(View(), id, addr);
      if id == ownId {
        return Updated;
      }
      BucketIndexInRange(ownId, id);
      var idx := BucketIndex(ownId, id);
      var bucket := buckets[idx];
      var known := FindId(bucket.nodes, id);
      if known.Some? {
        buckets := buckets[idx := bucket.(nodes := bucket.nodes[known.value := Fresh(id, addr)])];
        return Updated;
      }
      if |bucket.nodes| < K {
        buckets := buckets[idx := bucket.(nodes := bucket.nodes + [Fresh(id, addr)])];
        return Inserted;
      }
      var bad := FindBad(bucket.nodes);
      if bad.Some? {
        buckets := buckets[idx := bucket.(nodes := bucket.nodes[bad.value := Fresh(id, addr)])];
        return Inserted;
      }
      if |bucket.replacementCache| < K {
        buckets := buckets[idx := bucket.(replacementCache := bucket.replacementCache + [Fresh(id, addr)])];
      }
      assert buckets == old(buckets)[idx := InsertInBucket(bucket, id, addr).0];
      r := BucketFull;
    }

    method NoteGood(id: NodeId)
      requires Valid()
      modifies this
      ensures Valid() && View() == MarkGood(old(View()), id)
    {
      hide BucketIndex;
      MarksKeepInv(View(), id);
      BucketIndexInRange(ownId, id);
      var idx := BucketIndex(ownId, id);
      var known := FindId(buckets[idx].nodes, id);
      if known.Some? {
        var node := buckets[idx].nodes[known.value];
        node := node.(status := Good);
        node := node.(failedQueries := 0);
        buckets := buckets[idx := buckets[idx].(nodes := buckets[idx].nodes[known.value := node])];
      }
    }

    method NoteFailed(id: NodeId)
      requires Valid()
      modifies this
      ensures Valid() && View() == MarkFailed(old(View()), id)
    {
      hide BucketIndex;
      MarksKeepInv(View(), id);
      BucketIndexInRange(ownId, id);
      var idx := BucketIndex(ownId, id);
      var known := FindId(buckets[idx].nodes, id);
      if known.Some? {
        var node := buckets[idx].nodes[known.value];
        node := node.(failedQueries := (node.failedQueries + 1) % 0x100);
        if node.failedQueries >= 3 {
          node := node.(status := Bad);
        } else {
          node := node.(status := Questionable);
        }
        buckets := buckets[idx := buckets[idx].(nodes := buckets[idx].nodes[known.value := node])];
      }
    }

    method AppendNonBad(all: seq<NodeEntry>, nodes: seq<NodeEntry>) returns (r: seq<NodeEntry>)
      ensures r == all + NonBad(nodes)
    {
      r := all;
      for i := 0 to |nodes|
        invariant r == all + NonBad(nodes[..i])
      {
        assert nodes[..i + 1][..i] == nodes[..i];
        if nodes[i].status != Bad {
          r := r + [nodes[i]];
        }
      }
      assert nodes[..|nodes|] == nodes;
    }

    method Closest(target: NodeId, count: nat) returns (r: seq<NodeEntry>)
      requires Valid()
      ensures r == ClosestNodes(View(), target, count)
    {
      hide NonBad, SortByKey, Dist;
      var all: seq<NodeEntry> := [];
      for b := 0 to |buckets|
        invariant all == Collect(buckets[..b])
      {
        all := AppendNonBad(all, buckets[b].nodes);
        assert buckets[..b + 1][..b] == buckets[..b];
      }
      assert buckets[..|buckets|] == buckets;
      var sorted := SortByKey(all, DistTo(target));
      r := Take(sorted, count);
    }
  }
}
