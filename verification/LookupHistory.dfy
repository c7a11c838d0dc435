/** What a lookup learns: its candidates and tokens are exactly what the table and the replies told it. */
module LookupHistory {
  import opened ByteStrings
  import opened Wrappers
  import opened Address
  import opened NodeId
  import opened Sorting
  import opened RoutingTable
  import opened Lookup

  // ------------------------------------------------------------- what was told

  /** The address a list of nodes gives first for an id. */
  function FirstAddr(nodes: seq<(NodeId, SocketAddr)>, id: NodeId): Option<SocketAddr> {
    if nodes == [] then None
    else if nodes[0].0 == id then Some(nodes[0].1)
    else FirstAddr(nodes[1..], id)
  }

  function NodesIn(outcome: Outcome): seq<(NodeId, SocketAddr)> {
    if outcome.Reply? then outcome.response.Nodes() else []
  }

  /** The address first given for an id by the replies to these queries of one round. */
  function ToldBy(net: Network, round: nat, asked: seq<NodeId>, id: NodeId): Option<SocketAddr> {
    if asked == [] then None
    else
      var before := ToldBy(net, round, asked[..|asked| - 1], id);
      if before.Some? then before else FirstAddr(NodesIn(net(round, asked[|asked| - 1])), id)
  }

  /** The address first heard for an id: from our own table, or else from the earliest reply that names it. */
  function Heard(seeds: seq<NodeEntry>, net: Network, rounds: seq<seq<NodeId>>, id: NodeId): Option<SocketAddr> {
    if rounds == [] then FirstAddr(Pairs(seeds), id)
    else
      var n := |rounds| - 1;
      var before := Heard(seeds, net, rounds[..n], id);
      if before.Some? then before else ToldBy(net, n, rounds[n], id)
  }

  function Pairs(seeds: seq<NodeEntry>): seq<(NodeId, SocketAddr)> {
    seq(|seeds|, i requires 0 <= i < |seeds| => (seeds[i].id, seeds[i].addr))
  }

  function StateFor(outcome: Outcome): CandidateState {
    match outcome
    case TaskLost => InFlight
    case NoReply => Failed
    case Reply(_) => Responded
  }

  /** What became of the query of an id, if it was asked. */
  function StateOf(net: Network, rounds: seq<seq<NodeId>>, id: NodeId): CandidateState {
    if rounds == [] then NotQueried
    else
      var n := |rounds| - 1;
      if id in rounds[n] then StateFor(net(n, id)) else StateOf(net, rounds[..n], id)
  }

  type Token = (NodeId, SocketAddr, Option<Bytes>)

  /** One token for each reply, in order: the replier's id, the address asked, and what it gave. */
  function RoundTokens(net: Network, round: nat, asked: seq<Query>): seq<Token> {
    if asked == [] then []
    else
      var q := asked[|asked| - 1];
      RoundTokens(net, round, asked[..|asked| - 1])
        + match net(round, q.id)
          case Reply(resp) => [(resp.id, q.addr, resp.Token())]
          case _ => []
  }

  /** The queries of a round, each to the address first heard for its id. */
  function QueriesOf(seeds: seq<NodeEntry>, net: Network, before: seq<seq<NodeId>>, ids: seq<NodeId>): seq<Query> {
    seq(|ids|, i requires 0 <= i < |ids| =>
      Query(ids[i], match Heard(seeds, net, before, ids[i]) case Some(a) => a case None => SocketAddr([], 0)))
  }

  function AllTokens(seeds: seq<NodeEntry>, net: Network, rounds: seq<seq<NodeId>>): seq<Token> {
    if rounds == [] then []
    else
      var n := |rounds| - 1;
      AllTokens(seeds, net, rounds[..n]) + RoundTokens(net, n, QueriesOf(seeds, net, rounds[..n], rounds[n]))
  }

  /** What a round does to the routing table: each replier is entered and marked good, each silent node failed. */
  function RoundOps(net: Network, round: nat, asked: seq<Query>): seq<Op> {
    if asked == [] then []
    else
      var q := asked[|asked| - 1];
      RoundOps(net, round, asked[..|asked| - 1])
        + match net(round, q.id)
          case Reply(resp) => [InsertOp(resp.id, q.addr), GoodOp(resp.id)]
          case NoReply => [FailedOp(q.id)]
          case TaskLost => []
  }

  function AllOps(seeds: seq<NodeEntry>, net: Network, rounds: seq<seq<NodeId>>): seq<Op> {
    if rounds == [] then []
    else
      var n := |rounds| - 1;
      AllOps(seeds, net, rounds[..n]) + RoundOps(net, n, QueriesOf(seeds, net, rounds[..n], rounds[n]))
  }

  // ----------------------------------------------------------- what is recorded

  /** The first candidate of an id. */
  function Find(cands: seq<Candidate>, id: NodeId): (r: Option<Candidate>)
    ensures r.Some? ==> r.value in cands && r.value.id == id
    ensures r.None? ==> forall c :: c in cands ==> c.id != id
  {
    if cands == [] then None
    else if cands[0].id == id then Some(cands[0])
    else Find(cands[1..], id)
  }

  lemma {:induction false} FindOf(cands: seq<Candidate>, c: Candidate)
    requires DistinctIds(cands) && c in cands
    ensures Find(cands, c.id) == Some(c)
  {
    var k :| 0 <= k < |cands| && cands[k] == c;
    var r := Find(cands, c.id).value;
    var j :| 0 <= j < |cands| && cands[j] == r;
  }

  lemma {:induction false} FindSet(cands: seq<Candidate>, id: NodeId, st: CandidateState, k: NodeId)
    ensures Find(SetState(cands, id, st), k)
         == match Find(cands, k)
            case Some(c) => Some(if k == id then c.(state := st) else c)
            case None => None
  {
    if cands != [] && cands[0].id != id {
      FindSet(cands[1..], id, st, k);
    }
  }

  lemma {:induction false} FindAppend(cands: seq<Candidate>, c: Candidate, k: NodeId)
    ensures Find(cands + [c], k) == if Find(cands, k).Some? then Find(cands, k) else if c.id == k then Some(c) else None
  {
    if cands != [] {
      assert (cands + [c])[1..] == cands[1..] + [c];
      FindAppend(cands[1..], c, k);
    }
  }

  lemma {:induction false} FirstAddrSnoc(nodes: seq<(NodeId, SocketAddr)>, n: (NodeId, SocketAddr), k: NodeId)
    ensures FirstAddr(nodes + [n], k)
         == if FirstAddr(nodes, k).Some? then FirstAddr(nodes, k) else if n.0 == k then Some(n.1) else None
  {
    if nodes != [] {
      assert (nodes + [n])[1..] == nodes[1..] + [n];
      FirstAddrSnoc(nodes[1..], n, k);
    }
  }

  lemma HasIdIs(cands: seq<Candidate>, id: NodeId)
    ensures HasId(cands, id) <==> Find(cands, id).Some?
  {
  }

  lemma {:induction false} FindAdd(cands: seq<Candidate>, nodes: seq<(NodeId, SocketAddr)>, k: NodeId)
    ensures Find(AddNodes(cands, nodes), k)
         == if Find(cands, k).Some? then Find(cands, k)
            else match FirstAddr(nodes, k)
                 case Some(a) => Some(Candidate(k, a, NotQueried))
                 case None => None
  {
    if nodes != [] {
      var front, last := nodes[..|nodes| - 1], nodes[|nodes| - 1];
      assert nodes == front + [last];
      FindAdd(cands, front, k);
      FindAdd(cands, front, last.0);
      FirstAddrSnoc(front, last, k);
      HasIdIs(AddNodes(cands, front), last.0);
      FindAppend(AddNodes(cands, front), Candidate(last.0, last.1, NotQueried), k);
    }
  }

  lemma FindSorted(cands: seq<Candidate>, target: NodeId, queried: set<NodeId>, k: NodeId)
    requires Consistent(cands, queried)
    ensures Find(SortByKey(cands, CandidateDist(target)), k) == Find(cands, k)
  {
    hide Find, SortByKey;
    var sorted := SortByKey(cands, CandidateDist(target));
    SortSorts(cands, CandidateDist(target));
    SortKeeps(cands, queried, target);
    FindMembers(cands, k);
    FindMembers(sorted, k);
    if Find(cands, k).Some? {
      FindOf(sorted, Find(cands, k).value);
    }
  }

  lemma FindMembers(cands: seq<Candidate>, k: NodeId)
    ensures Find(cands, k).Some? ==> Find(cands, k).value in cands && Find(cands, k).value.id == k
    ensures Find(cands, k).None? ==> forall c :: c in cands ==> c.id != k
  {
  }

  // ------------------------------------------------------------------- one round

  lemma {:induction false} LaunchFinds(s: State, qs: seq<Query>, k: NodeId)
    ensures Find(Launch(s, qs).candidates, k)
         == match Find(s.candidates, k)
            case Some(c) => Some(if k in Ids(qs) then c.(state := InFlight) else c)
            case None => None
  {
    if qs != [] {
      var front, q := qs[..|qs| - 1], qs[|qs| - 1];
      LaunchFinds(s, front, k);
      assert Ids(qs) == Ids(front) + [q.id];
      FindSet(Launch(s, front).candidates, q.id, InFlight, k);
    }
  }

  /** The candidate of an id after the replies to some of the round's queries. */
  function AfterReplies(net: Network, round: nat, was: Option<Candidate>, asked: seq<NodeId>, k: NodeId)
    : Option<Candidate>
  {
    match was
    case Some(c) => Some(if k in asked then c.(state := StateFor(net(round, k))) else c)
    case None =>
      match ToldBy(net, round, asked, k)
      case Some(a) => Some(Candidate(k, a, NotQueried))
      case None => None
  }

  lemma ReplyFinds(s: State, q: Query, outcome: Outcome, k: NodeId)
    requires Shaped(s.table)
    ensures Find(Receive(s, q, outcome).candidates, k)
         == match Find(s.candidates, k)
            case Some(c) => Some(if k == q.id && !outcome.TaskLost? then c.(state := StateFor(outcome)) else c)
            case None =>
              match FirstAddr(NodesIn(outcome), k)
              case Some(a) => Some(Candidate(k, a, NotQueried))
              case None => None
  {
    hide InsertOrUpdate, UpdateNode, Find, SetState, AddNodes;
    match outcome
    case TaskLost =>
    case NoReply => FindSet(s.candidates, q.id, Failed, k);
    case Reply(resp) =>
      FindSet(s.candidates, q.id, Responded, k);
      FindAdd(SetState(s.candidates, q.id, Responded), resp.Nodes(), k);
  }

  lemma {:induction false} RepliesFind(s: State, qs: seq<Query>, net: Network, round: nat, k: NodeId)
    requires Shaped(s.table)
    requires k in Ids(qs) ==> Find(s.candidates, k).Some? && Find(s.candidates, k).value.state == InFlight
    ensures Find(ReceiveAll(s, qs, net, round).candidates, k)
         == AfterReplies(net, round, Find(s.candidates, k), Ids(qs), k)
  {
    hide Find, Receive, FirstAddr;
    if qs != [] {
      var front, q := qs[..|qs| - 1], qs[|qs| - 1];
      assert Ids(qs) == Ids(front) + [q.id];
      assert Ids(qs)[..|qs| - 1] == Ids(front);
      RepliesFind(s, front, net, round, k);
      ReplyFinds(ReceiveAll(s, front, net, round), q, net(round, q.id), k);
    }
  }

  lemma {:induction false} RepliesTokens(s: State, qs: seq<Query>, net: Network, round: nat)
    requires Shaped(s.table)
    ensures ReceiveAll(s, qs, net, round).tokens == s.tokens + RoundTokens(net, round, qs)
  {
    hide InsertOrUpdate, UpdateNode, SetState, AddNodes;
    if qs == [] {
      assert s.tokens + [] == s.tokens;
    } else {
      var front, q := qs[..|qs| - 1], qs[|qs| - 1];
      RepliesTokens(s, front, net, round);
      match net(round, q.id) {
        case Reply(resp) =>
          assert s.tokens + RoundTokens(net, round, front) + [(resp.id, q.addr, resp.Token())]
              == s.tokens + (RoundTokens(net, round, front) + [(resp.id, q.addr, resp.Token())]);
        case _ =>
          assert RoundTokens(net, round, front) + [] == RoundTokens(net, round, front);
      }
    }
  }

  lemma {:induction false} ApplyMore(t: Table, ops: seq<Op>, more: seq<Op>)
    requires Shaped(t)
    ensures ApplyOps(t, ops + more) == ApplyOps(ApplyOps(t, ops), more)
  {
    hide ApplyOp;
    if more == [] {
      assert ops + more == ops;
    } else {
      var n := |more| - 1;
      assert (ops + more)[..|ops + more| - 1] == ops + more[..n];
      ApplyMore(t, ops, more[..n]);
    }
  }

  lemma OneOp(t: Table, op: Op)
    requires Shaped(t)
    ensures ApplyOps(t, [op]) == ApplyOp(t, op)
  {
    hide ApplyOp;
    assert [op][..0] == [];
  }

  lemma ReplyTable(s: State, q: Query, outcome: Outcome)
    requires Shaped(s.table)
    ensures Receive(s, q, outcome).table
         == ApplyOps(s.table, match outcome
                              case Reply(resp) => [InsertOp(resp.id, q.addr), GoodOp(resp.id)]
                              case NoReply => [FailedOp(q.id)]
                              case TaskLost => [])
  {
    hide InsertOrUpdate, UpdateNode, SetState, AddNodes;
    match outcome
    case TaskLost =>
    case NoReply => OneOp(s.table, FailedOp(q.id));
    case Reply(resp) =>
      var first := [InsertOp(resp.id, q.addr)];
      OneOp(s.table, first[0]);
      ApplyMore(s.table, first, [GoodOp(resp.id)]);
      OneOp(ApplyOps(s.table, first), GoodOp(resp.id));
      assert first + [GoodOp(resp.id)] == [InsertOp(resp.id, q.addr), GoodOp(resp.id)];
  }

  lemma {:induction false} RepliesTable(s: State, qs: seq<Query>, net: Network, round: nat)
    requires Shaped(s.table)
    ensures ReceiveAll(s, qs, net, round).table == ApplyOps(s.table, RoundOps(net, round, qs))
  {
    hide Receive, ApplyOps;
    if qs == [] {
      ApplyNothing(s.table);
    } else {
      var front, q := qs[..|qs| - 1], qs[|qs| - 1];
      RepliesTable(s, front, net, round);
      ReplyTable(ReceiveAll(s, front, net, round), q, net(round, q.id));
      var last := match net(round, q.id)
        case Reply(resp) => [InsertOp(resp.id, q.addr), GoodOp(resp.id)]
        case NoReply => [FailedOp(q.id)]
        case TaskLost => [];
      ApplyMore(s.table, RoundOps(net, round, front), last);
    }
  }

  lemma ApplyNothing(t: Table)
    requires Shaped(t)
    ensures ApplyOps(t, []) == t
  {
  }

  // -------------------------------------------------------------------- all rounds

  /** The candidate there should be of an id: at the address first heard, in the state its query left it. */
  function Expected(seeds: seq<NodeEntry>, net: Network, rounds: seq<seq<NodeId>>, id: NodeId): Option<Candidate> {
    match Heard(seeds, net, rounds, id)
    case Some(a) => Some(Candidate(id, a, StateOf(net, rounds, id)))
    case None => None
  }

  ghost predicate Learned(start: Table, seeds: seq<NodeEntry>, net: Network, s: State)
    requires Shaped(start)
  {
    && (forall id :: Find(s.candidates, id) == Expected(seeds, net, s.rounds, id))
    && s.tokens == AllTokens(seeds, net, s.rounds)
    && s.table == ApplyOps(start, AllOps(seeds, net, s.rounds))
  }

  lemma {:induction false} SeedsFind(seeds: seq<NodeEntry>, id: NodeId)
    ensures Find(Seeds(seeds), id)
         == match FirstAddr(Pairs(seeds), id)
            case Some(a) => Some(Candidate(id, a, NotQueried))
            case None => None
  {
    if seeds != [] {
      SeedsFind(seeds[1..], id);
      assert Seeds(seeds)[1..] == Seeds(seeds[1..]) && Pairs(seeds)[1..] == Pairs(seeds[1..]);
    }
  }

  lemma StartLearned(table: Table, target: NodeId, net: Network)
    requires Shaped(table)
    ensures Learned(table, ClosestNodes(table, target, K), net, Start(table, target))
  {
    hide ClosestNodes, Find, FirstAddr, Seeds, Pairs;
    ApplyNothing(table);
    var seeds := ClosestNodes(table, target, K);
    forall id
      ensures Find(Seeds(seeds), id) == Expected(seeds, net, [], id)
    {
      SeedsFind(seeds, id);
    }
  }

  lemma {:induction false} NotAsked(net: Network, rounds: seq<seq<NodeId>>, id: NodeId)
    requires id !in AllQueries(rounds)
    ensures StateOf(net, rounds, id) == NotQueried
  {
    if rounds != [] {
      NotAsked(net, rounds[..|rounds| - 1], id);
    }
  }

  /** What a round asks are candidates, at their addresses. */
  lemma {:induction false} SelectedFrom(cands: seq<Candidate>, queried: set<NodeId>, limit: nat, i: nat)
    returns (c: Candidate)
    requires i < |Select(cands, queried, limit)|
    ensures c in cands && Select(cands, queried, limit)[i] == Query(c.id, c.addr) && Eligible(c, queried)
  {
    if Eligible(cands[0], queried) {
      if i == 0 {
        c := cands[0];
      } else {
        c := SelectedFrom(cands[1..], queried, limit - 1, i - 1);
      }
    } else {
      c := SelectedFrom(cands[1..], queried, limit, i);
    }
  }

  lemma RoundQueries(start: Table, seeds: seq<NodeEntry>, net: Network, s: State, qs: seq<Query>)
    requires Shaped(start) && Inv(s) && Learned(start, seeds, net, s) && qs == Select(s.candidates, s.queried, ALPHA)
    ensures qs == QueriesOf(seeds, net, s.rounds, Ids(qs))
    ensures forall i :: 0 <= i < |qs| ==> Find(s.candidates, qs[i].id).Some?
  {
    hide Find, Heard, Select, BucketInv, AllQueries, Consistent, StateOf, Eligible;
    ConsistentDistinct(s.candidates, s.queried);
    forall i | 0 <= i < |qs|
      ensures Heard(seeds, net, s.rounds, qs[i].id) == Some(qs[i].addr) && Find(s.candidates, qs[i].id).Some?
    {
      var c := SelectedFrom(s.candidates, s.queried, ALPHA, i);
      FindOf(s.candidates, c);
      assert Find(s.candidates, c.id) == Expected(seeds, net, s.rounds, c.id);
    }
    var other := QueriesOf(seeds, net, s.rounds, Ids(qs));
    assert |other| == |qs| && forall i :: 0 <= i < |qs| ==> other[i] == qs[i];
  }

  lemma RoundFinds(start: Table, seeds: seq<NodeEntry>, net: Network, s: State, qs: seq<Query>, k: NodeId)
    requires Shaped(start) && Inv(s) && Learned(start, seeds, net, s) && qs == Select(s.candidates, s.queried, ALPHA)
    ensures Find(PlayRound(s, qs, net).candidates, k) == Expected(seeds, net, s.rounds + [Ids(qs)], k)
  {
    hide Find, Select, BucketInv, AllQueries, Launch, ReceiveAll, AllTokens, ToldBy;
    RoundQueries(start, seeds, net, s, qs);
    var n, ids := |s.rounds|, Ids(qs);
    assert (s.rounds + [ids])[..n] == s.rounds && (s.rounds + [ids])[n] == ids;
    LaunchFinds(s, qs, k);
    var launched := Launch(s, qs).(rounds := s.rounds + [ids]);
    if k in ids {
      var i :| 0 <= i < |ids| && ids[i] == k;
      assert qs[i].id == k;
    }
    RepliesFind(launched, qs, net, n, k);
    assert Find(s.candidates, k) == Expected(seeds, net, s.rounds, k);
    if Find(s.candidates, k).None? {
      HasIdIs(s.candidates, k);
      NotAsked(net, s.rounds, k);
    }
  }

  lemma RoundLearned(start: Table, seeds: seq<NodeEntry>, net: Network, s: State, qs: seq<Query>)
    requires Shaped(start) && Inv(s) && Learned(start, seeds, net, s) && qs == Select(s.candidates, s.queried, ALPHA)
    ensures Learned(start, seeds, net, PlayRound(s, qs, net))
  {
    hide Find, Select, BucketInv, AllQueries, Consistent, RoundTokens, QueriesOf;
    forall k
      ensures Find(PlayRound(s, qs, net).candidates, k) == Expected(seeds, net, s.rounds + [Ids(qs)], k)
    {
      RoundFinds(start, seeds, net, s, qs, k);
    }
    RoundKeeps(s, net, qs);
    RoundQueries(start, seeds, net, s, qs);
    var launched := Launch(s, qs).(rounds := s.rounds + [Ids(qs)]);
    RepliesTokens(launched, qs, net, |s.rounds|);
    RoundTableIs(s, qs, net);
    ApplyMore(start, AllOps(seeds, net, s.rounds), RoundOps(net, |s.rounds|, qs));
    hide PlayRound, Expected, ApplyOps, RoundOps;
    assert (s.rounds + [Ids(qs)])[..|s.rounds|] == s.rounds;
    RoundTokensAre(s, qs, net);
  }

  lemma RoundTokensAre(s: State, qs: seq<Query>, net: Network)
    requires Shaped(s.table)
    ensures PlayRound(s, qs, net).tokens == s.tokens + RoundTokens(net, |s.rounds|, qs)
  {
    hide Launch, ReceiveAll, RoundTokens;
    RepliesTokens(Launch(s, qs).(rounds := s.rounds + [Ids(qs)]), qs, net, |s.rounds|);
  }

  lemma RoundTableIs(s: State, qs: seq<Query>, net: Network)
    requires Shaped(s.table)
    ensures PlayRound(s, qs, net).table == ApplyOps(s.table, RoundOps(net, |s.rounds|, qs))
  {
    hide Launch, ReceiveAll, RoundOps;
    RepliesTable(Launch(s, qs).(rounds := s.rounds + [Ids(qs)]), qs, net, |s.rounds|);
  }

  lemma SortLearned(start: Table, seeds: seq<NodeEntry>, net: Network, s: State, target: NodeId)
    requires Shaped(start) && Inv(s) && Learned(start, seeds, net, s)
    ensures Inv(Sorted(s, target)) && Learned(start, seeds, net, Sorted(s, target))
  {
    hide Find, SortByKey, BucketInv, AllQueries, Consistent, Expected;
    SortKeeps(s.candidates, s.queried, target);
    forall k
      ensures Find(Sorted(s, target).candidates, k) == Find(s.candidates, k)
    {
      FindSorted(s.candidates, target, s.queried, k);
    }
  }

  lemma {:induction false} RunLearned(start: Table, seeds: seq<NodeEntry>, s: State, target: NodeId,
                                        net: Network, left: nat)
    requires Shaped(start) && Inv(s) && Learned(start, seeds, net, s)
    ensures Inv(Run(s, target, net, left).0) && Learned(start, seeds, net, Run(s, target, net, left).0)
    decreases left
  {
    hide Consistent, BucketInv, AllQueries, Learned, Select, PlayRound, NothingCloser, SortByKey;
    if left > 0 {
      SortLearned(start, seeds, net, s, target);
      var sorted := Sorted(s, target);
      var qs := Select(sorted.candidates, sorted.queried, ALPHA);
      if qs != [] {
        RoundKeeps(sorted, net, qs);
        RoundLearned(start, seeds, net, sorted, qs);
        var next := PlayRound(sorted, qs, net);
        if !NothingCloser(next.candidates, target) {
          RunLearned(start, seeds, next, target, net, left - 1);
        }
      }
    }
  }

  /** Somebody who answered and is at most this far from the target. */
  ghost predicate AnsweredWithin(net: Network, rounds: seq<seq<NodeId>>, target: NodeId, distance: nat) {
    exists id :: id in AllQueries(rounds) && StateOf(net, rounds, id) == Responded && Dist(id, target) <= distance
  }

  /**
   * On any network, a lookup ends with exactly one candidate for each id it heard of, from our table or in a
   * reply, at the address first given for it and in the state its query left it; with one token for each
   * reply, in order; with each replier entered in the routing table and each silent node marked; and, if
   * it stopped before its cap, with somebody who answered at least as close as any id it heard of and did
   * not ask.
   */
  lemma LookupLearns(table: Table, target: NodeId, net: Network, id: NodeId)
    requires TableInv(table)
    ensures var (s, stop) := Run(Start(table, target), target, net, MAX_ROUNDS);
      var seeds := ClosestNodes(table, target, K);
      && Find(s.candidates, id) == Expected(seeds, net, s.rounds, id)
      && DistinctIds(s.candidates)
      && s.tokens == AllTokens(seeds, net, s.rounds)
      && s.table == ApplyOps(table, AllOps(seeds, net, s.rounds))
      && (stop != Capped && Heard(seeds, net, s.rounds, id).Some? && id !in AllQueries(s.rounds) ==>
            AnsweredWithin(net, s.rounds, target, Dist(id, target)))
  {
    hide Run, Start, BucketInv, AllQueries, Find, Heard, StateOf, AllTokens, Dist, ClosestNodes;
    var seeds := ClosestNodes(table, target, K);
    StartInv(table, target);
    StartLearned(table, target, net);
    RunLearned(table, seeds, Start(table, target), target, net, MAX_ROUNDS);
    RunIs(Start(table, target), target, net, MAX_ROUNDS);
    var (s, stop) := Run(Start(table, target), target, net, MAX_ROUNDS);
    assert Find(s.candidates, id) == Expected(seeds, net, s.rounds, id);
    if stop != Capped && Heard(seeds, net, s.rounds, id).Some? && id !in AllQueries(s.rounds) {
      NotAsked(net, s.rounds, id);
      FindMembers(s.candidates, id);
      var c := Find(s.candidates, id).value;
      assert c in s.candidates && c.state == NotQueried;
      var r :| r in s.candidates && r.state == Responded && Dist(r.id, target) <= Dist(c.id, target);
      FindOf(s.candidates, r);
      assert Find(s.candidates, r.id) == Expected(seeds, net, s.rounds, r.id);
      if r.id !in AllQueries(s.rounds) {
        NotAsked(net, s.rounds, r.id);
      }
    }
  }
}
