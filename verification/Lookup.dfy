/** The iterative get-peers lookup, under arbitrary replies. */
module Lookup {
  import opened ByteStrings
  import opened Wrappers
  import opened Address
  import opened NodeId
  import opened Sorting
  import opened RoutingTable

  const ALPHA: nat := 3
  const MAX_ROUNDS: nat := 20

  datatype CandidateState = NotQueried | InFlight | Responded | Failed

  datatype Candidate = Candidate(id: NodeId, addr: SocketAddr, state: CandidateState)

  datatype KrpcResponse =
    | GetPeers(id: NodeId, token: Option<Bytes>, peers: seq<SocketAddr>, nodes: seq<(NodeId, SocketAddr)>)
    | FindNode(id: NodeId, nodes: seq<(NodeId, SocketAddr)>)
    | Ping(id: NodeId)
    | AnnouncePeer(id: NodeId)
  {
    function Token(): Option<Bytes> {
      if GetPeers? then token else None
    }

    function Nodes(): seq<(NodeId, SocketAddr)> {
      if GetPeers? || FindNode? then nodes else []
    }
  }

  /** What becomes of one query: its task dies, no valid reply comes, or a reply does. */
  datatype Outcome = TaskLost | NoReply | Reply(response: KrpcResponse)

  /** The outcome of querying an id in a round: arbitrary, so it stands for any network. */
  type Network = (nat, NodeId) -> Outcome

  datatype Query = Query(id: NodeId, addr: SocketAddr)

  datatype State = State(
    candidates: seq<Candidate>,
    queried: set<NodeId>,
    tokens: seq<(NodeId, SocketAddr, Option<Bytes>)>,
    table: Table,
    rounds: seq<seq<NodeId>>)

  datatype Stop = Exhausted | Converged | Capped

  // ------------------------------------------------------- specification

  function CandidateDist(target: NodeId): Candidate -> nat {
    (c: Candidate) => Dist(c.id, target)
  }

  predicate Eligible(c: Candidate, queried: set<NodeId>) {
    c.state == NotQueried && c.id !in queried
  }

  /** The first `limit` eligible candidates, in order. */
  function Select(cands: seq<Candidate>, queried: set<NodeId>, limit: nat): (r: seq<Query>)
    ensures |r| <= limit
  {
    if cands == [] || limit == 0 then []
    else if Eligible(cands[0], queried) then
      [Query(cands[0].id, cands[0].addr)] + Select(cands[1..], queried, limit - 1)
    else Select(cands[1..], queried, limit)
  }

  /** Change the state of the first candidate with this id. */
  function SetState(cands: seq<Candidate>, id: NodeId, st: CandidateState): (r: seq<Candidate>)
    ensures |r| == |cands|
  {
    if cands == [] then []
    else if cands[0].id == id then [cands[0].(state := st)] + cands[1..]
    else [cands[0]] + SetState(cands[1..], id, st)
  }

  predicate HasId(cands: seq<Candidate>, id: NodeId) {
    exists i :: 0 <= i < |cands| && cands[i].id == id
  }

  function AddNodes(cands: seq<Candidate>, nodes: seq<(NodeId, SocketAddr)>): seq<Candidate> {
    if nodes == [] then cands
    else
      var (id, addr) := nodes[|nodes| - 1];
      var front := AddNodes(cands, nodes[..|nodes| - 1]);
      if HasId(front, id) then front else front + [Candidate(id, addr, NotQueried)]
  }

  function Launch(s: State, qs: seq<Query>): (r: State)
    ensures r.table == s.table && r.tokens == s.tokens && r.rounds == s.rounds
  {
    if qs == [] then s
    else
      var t := Launch(s, qs[..|qs| - 1]);
      var q := qs[|qs| - 1];
      t.(queried := t.queried + {q.id}, candidates := SetState(t.candidates, q.id, InFlight))
  }

  function Receive(s: State, q: Query, outcome: Outcome): (r: State)
    requires Shaped(s.table)
    ensures Shaped(r.table)
  {
    match outcome
    case TaskLost => s
    case NoReply => s.(candidates := SetState(s.candidates, q.id, Failed), table := MarkFailed(s.table, q.id))
    case Reply(resp) =>
      s.(candidates := AddNodes(SetState(s.candidates, q.id, Responded), resp.Nodes()),
         table := MarkGood(InsertOrUpdate(s.table, resp.id, q.addr).0, resp.id),
         tokens := s.tokens + [(resp.id, q.addr, resp.Token())])
  }

  function ReceiveAll(s: State, qs: seq<Query>, net: Network, round: nat): (r: State)
    requires Shaped(s.table)
    ensures Shaped(r.table)
  {
    if qs == [] then s
    else
      var q := qs[|qs| - 1];
      Receive(ReceiveAll(s, qs[..|qs| - 1], net, round), q, net(round, q.id))
  }

  function MinDist(cands: seq<Candidate>, st: CandidateState, target: NodeId): Option<nat> {
    if cands == [] then None
    else
      var rest := MinDist(cands[1..], st, target);
      var d := Dist(cands[0].id, target);
      if cands[0].state != st || (rest.Some? && rest.value <= d) then rest else Some(d)
  }

  /** The closest candidate not yet queried is no closer than the closest responder. */
  predicate NothingCloser(cands: seq<Candidate>, target: NodeId) {
    var resp := MinDist(cands, Responded, target);
    var unq := MinDist(cands, NotQueried, target);
    resp.Some? && unq.Some? && unq.value >= resp.value
  }

  function Sorted(s: State, target: NodeId): State {
    s.(candidates := SortByKey(s.candidates, CandidateDist(target)))
  }

  function Ids(qs: seq<Query>): seq<NodeId> {
    seq(|qs|, i requires 0 <= i < |qs| => qs[i].id)
  }

  function PlayRound(s: State, qs: seq<Query>, net: Network): (r: State)
    requires Shaped(s.table)
    ensures Shaped(r.table)
  {
    var launched := Launch(s, qs).(rounds := s.rounds + [Ids(qs)]);
    ReceiveAll(launched, qs, net, |s.rounds|)
  }

  function Run(s: State, target: NodeId, net: Network, left: nat): (State, Stop)
    requires Shaped(s.table)
    decreases left
  {
    if left == 0 then (s, Capped)
    else
      var sorted := Sorted(s, target);
      var qs := Select(sorted.candidates, sorted.queried, ALPHA);
      if qs == [] then (sorted, Exhausted)
      else
        var next := PlayRound(sorted, qs, net);
        if NothingCloser(next.candidates, target) then (next, Converged)
        else Run(next, target, net, left - 1)
  }

  function Seeds(nodes: seq<NodeEntry>): seq<Candidate> {
    seq(|nodes|, i requires 0 <= i < |nodes| => Candidate(nodes[i].id, nodes[i].addr, NotQueried))
  }

  function Start(table: Table, target: NodeId): State
    requires Shaped(table)
  {
    State(Seeds(ClosestNodes(table, target, K)), {}, [], table, [])
  }

  // ----------------------------------------------------------- invariant

  ghost predicate DistinctIds(cands: seq<Candidate>) {
    forall i, j :: 0 <= i < j < |cands| ==> cands[i].id != cands[j].id
  }

  /** Queried ids are candidates; a candidate is still NotQueried exactly when it was not queried. */
  ghost predicate Consistent(cands: seq<Candidate>, queried: set<NodeId>) {
    && DistinctIds(cands)
    && (forall i :: 0 <= i < |cands| ==> (cands[i].state == NotQueried <==> cands[i].id !in queried))
    && (forall id :: id in queried ==> HasId(cands, id))
  }

  function AllQueries(rounds: seq<seq<NodeId>>): seq<NodeId> {
    if rounds == [] then [] else AllQueries(rounds[..|rounds| - 1]) + rounds[|rounds| - 1]
  }

  ghost predicate Inv(s: State) {
    && TableInv(s.table)
    && Consistent(s.candidates, s.queried)
    && NoDuplicates(AllQueries(s.rounds))
    && (forall id :: id in AllQueries(s.rounds) <==> id in s.queried)
    && |AllQueries(s.rounds)| <= ALPHA * |s.rounds|
  }

  lemma {:induction false} SetStateIs(cands: seq<Candidate>, id: NodeId, st: CandidateState)
    requires DistinctIds(cands)
    ensures var r := SetState(cands, id, st);
      forall i :: 0 <= i < |cands| ==> r[i] == if cands[i].id == id then cands[i].(state := st) else cands[i]
  {
    if cands != [] && cands[0].id != id {
      assert DistinctIds(cands[1..]);
      SetStateIs(cands[1..], id, st);
      var r := SetState(cands, id, st);
      forall i | 0 <= i < |cands|
        ensures r[i] == if cands[i].id == id then cands[i].(state := st) else cands[i]
      {
        if i > 0 {
          assert cands[1..][i - 1] == cands[i];
        }
      }
    }
  }

  lemma SetStateKeeps(cands: seq<Candidate>, queried: set<NodeId>, id: NodeId, st: CandidateState)
    requires Consistent(cands, queried) && st != NotQueried
    ensures HasId(cands, id) ==> Consistent(SetState(cands, id, st), queried + {id})
    ensures id in queried ==> Consistent(SetState(cands, id, st), queried)
    ensures forall k :: HasId(cands, k) ==> HasId(SetState(cands, id, st), k)
  {
    hide SetState;
    SetStateIs(cands, id, st);
    var r := SetState(cands, id, st);
    forall k | HasId(cands, k)
      ensures HasId(r, k)
    {
      var i :| 0 <= i < |cands| && cands[i].id == k;
      assert r[i].id == k;
    }
  }

  lemma {:induction false} AddNodesKeeps(cands: seq<Candidate>, nodes: seq<(NodeId, SocketAddr)>, queried: set<NodeId>)
    requires Consistent(cands, queried)
    ensures Consistent(AddNodes(cands, nodes), queried)
    ensures cands <= AddNodes(cands, nodes)
    ensures forall c :: c in AddNodes(cands, nodes) && c !in cands ==> c.state == NotQueried
  {
    if nodes != [] {
      AddNodesKeeps(cands, nodes[..|nodes| - 1], queried);
      var front := AddNodes(cands, nodes[..|nodes| - 1]);
      var (id, addr) := nodes[|nodes| - 1];
      if !HasId(front, id) {
        var r := front + [Candidate(id, addr, NotQueried)];
        assert id !in queried;
        forall k | k in queried
          ensures HasId(r, k)
        {
          var i :| 0 <= i < |front| && front[i].id == k;
          assert r[i].id == k;
        }
      }
    }
  }

  /** Selection takes eligible candidates only, in list order, without repetition. */
  lemma {:induction false} SelectedAreCandidates(cands: seq<Candidate>, queried: set<NodeId>, limit: nat)
    requires DistinctIds(cands)
    ensures var qs := Select(cands, queried, limit);
      && NoDuplicates(Ids(qs))
      && (forall i :: 0 <= i < |qs| ==> HasId(cands, qs[i].id) && qs[i].id !in queried)
  {
    if cands != [] && limit > 0 {
      assert DistinctIds(cands[1..]);
      var rest := if Eligible(cands[0], queried) then limit - 1 else limit;
      SelectedAreCandidates(cands[1..], queried, rest);
      var tail := Select(cands[1..], queried, rest);
      forall i | 0 <= i < |tail|
        ensures HasId(cands, tail[i].id) && tail[i].id != cands[0].id
      {
        var k :| 0 <= k < |cands[1..]| && cands[1..][k].id == tail[i].id;
        assert cands[k + 1].id == tail[i].id;
      }
      var qs := Select(cands, queried, limit);
      if Eligible(cands[0], queried) {
        hide Select, DistinctIds, HasId;
        assert Ids(qs) == [cands[0].id] + Ids(tail);
        DistinctPrepend(cands[0].id, Ids(tail));
      }
    }
  }

  lemma DistinctPrepend(id: NodeId, ids: seq<NodeId>)
    requires NoDuplicates(ids) && id !in ids
    ensures NoDuplicates([id] + ids)
  {
  }

  lemma {:induction false} LaunchKeeps(s: State, qs: seq<Query>)
    requires Consistent(s.candidates, s.queried)
    requires forall i :: 0 <= i < |qs| ==> HasId(s.candidates, qs[i].id)
    ensures var t := Launch(s, qs);
      && Consistent(t.candidates, t.queried)
      && (forall id :: id in t.queried <==> id in s.queried || id in Ids(qs))
      && (forall k :: HasId(s.candidates, k) ==> HasId(t.candidates, k))
  {
    if qs != [] {
      var front, q := qs[..|qs| - 1], qs[|qs| - 1];
      LaunchKeeps(s, front);
      assert Ids(qs) == Ids(front) + [q.id];
      SetStateKeeps(Launch(s, front).candidates, Launch(s, front).queried, q.id, InFlight);
    }
  }

  lemma ReceiveKeeps(s: State, q: Query, outcome: Outcome)
    requires TableInv(s.table) && Consistent(s.candidates, s.queried) && q.id in s.queried
    ensures var t := Receive(s, q, outcome);
      TableInv(t.table) && Consistent(t.candidates, t.queried) && t.queried == s.queried && t.rounds == s.rounds
  {
    hide Consistent, BucketInv, InsertOrUpdate, UpdateNode;
    match outcome
    case TaskLost =>
    case NoReply =>
      SetStateKeeps(s.candidates, s.queried, q.id, Failed);
      MarksKeepInv(s.table, q.id);
    case Reply(resp) =>
      SetStateKeeps(s.candidates, s.queried, q.id, Responded);
      AddNodesKeeps(SetState(s.candidates, q.id, Responded), resp.Nodes(), s.queried);
      InsertKeepsInv(s.table, resp.id, q.addr);
      MarksKeepInv(InsertOrUpdate(s.table, resp.id, q.addr).0, resp.id);
  }

  lemma {:induction false} ReceiveAllKeeps(s: State, qs: seq<Query>, net: Network, round: nat)
    requires TableInv(s.table) && Consistent(s.candidates, s.queried)
    requires forall i :: 0 <= i < |qs| ==> qs[i].id in s.queried
    ensures var t := ReceiveAll(s, qs, net, round);
      TableInv(t.table) && Consistent(t.candidates, t.queried) && t.queried == s.queried && t.rounds == s.rounds
  {
    hide Consistent, BucketInv, Receive;
    if qs != [] {
      var front, q := qs[..|qs| - 1], qs[|qs| - 1];
      ReceiveAllKeeps(s, front, net, round);
      ReceiveKeeps(ReceiveAll(s, front, net, round), q, net(round, q.id));
    }
  }

  lemma {:induction false} SortKeeps(cands: seq<Candidate>, queried: set<NodeId>, target: NodeId)
    requires Consistent(cands, queried)
    ensures Consistent(SortByKey(cands, CandidateDist(target)), queried)
  {
    hide SortByKey;
    var sorted := SortByKey(cands, CandidateDist(target));
    SortSorts(cands, CandidateDist(target));
    assert NoDuplicates(cands);
    SortKeepsDistinct(cands, CandidateDist(target));
    forall i | 0 <= i < |sorted|
      ensures sorted[i] in cands
      ensures sorted[i].state == NotQueried <==> sorted[i].id !in queried
    {
      assert sorted[i] in sorted;
      var k :| 0 <= k < |cands| && cands[k] == sorted[i];
    }
    forall i, j | 0 <= i < j < |sorted|
      ensures sorted[i].id != sorted[j].id
    {
      var k :| 0 <= k < |cands| && cands[k] == sorted[i];
      var m :| 0 <= m < |cands| && cands[m] == sorted[j];
    }
    forall id | id in queried
      ensures HasId(sorted, id)
    {
      var k :| 0 <= k < |cands| && cands[k].id == id;
      assert cands[k] in sorted;
      var i :| 0 <= i < |sorted| && sorted[i] == cands[k];
      assert sorted[i].id == id;
    }
  }

  lemma DistinctAppend(xs: seq<NodeId>, ys: seq<NodeId>)
    requires NoDuplicates(xs) && NoDuplicates(ys)
    requires forall i :: 0 <= i < |ys| ==> ys[i] !in xs
    ensures NoDuplicates(xs + ys)
  {
    forall i, j | 0 <= i < j < |xs + ys|
      ensures (xs + ys)[i] != (xs + ys)[j]
    {
      if i < |xs| <= j {
        assert xs[i] in xs;
      }
    }
  }

  /** One round keeps the invariant, whatever the replies. */
  lemma RoundKeeps(s: State, net: Network, qs: seq<Query>)
    requires Inv(s) && qs == Select(s.candidates, s.queried, ALPHA)
    ensures Inv(PlayRound(s, qs, net))
    ensures PlayRound(s, qs, net).rounds == s.rounds + [Ids(qs)]
  {
    hide Consistent, BucketInv, Select, Launch, ReceiveAll, Eligible;
    assert DistinctIds(s.candidates) by {
      ConsistentDistinct(s.candidates, s.queried);
    }
    SelectedAreCandidates(s.candidates, s.queried, ALPHA);
    LaunchKeeps(s, qs);
    var launched := Launch(s, qs).(rounds := s.rounds + [Ids(qs)]);
    forall i | 0 <= i < |qs|
      ensures qs[i].id in launched.queried
    {
      assert Ids(qs)[i] == qs[i].id && Ids(qs)[i] in Ids(qs);
    }
    ReceiveAllKeeps(launched, qs, net, |s.rounds|);
    var before, now := AllQueries(s.rounds), Ids(qs);
    assert (s.rounds + [now])[..|s.rounds|] == s.rounds;
    assert AllQueries(s.rounds + [now]) == before + now;
    DistinctAppend(before, now);
  }

  lemma ConsistentDistinct(cands: seq<Candidate>, queried: set<NodeId>)
    requires Consistent(cands, queried)
    ensures DistinctIds(cands)
  {
  }

  /** Every round asks the closest candidates not asked before, three of them if there are as many. */
  lemma {:induction false} RoundAsksClosest(cands: seq<Candidate>, queried: set<NodeId>, target: NodeId,
                                            limit: nat, c: Candidate)
    requires SortedBy(cands, CandidateDist(target)) && c in cands && Eligible(c, queried)
    ensures var qs := Select(cands, queried, limit);
      c.id !in Ids(qs) ==>
        |qs| == limit && forall i :: 0 <= i < |qs| ==> Dist(qs[i].id, target) <= Dist(c.id, target)
  {
    if limit > 0 {
      var qs := Select(cands, queried, limit);
      assert SortedBy(cands[1..], CandidateDist(target));
      assert CandidateDist(target)(cands[0]) <= CandidateDist(target)(c);
      if Eligible(cands[0], queried) {
        var tail := Select(cands[1..], queried, limit - 1);
        assert Ids(qs) == [cands[0].id] + Ids(tail);
        if c != cands[0] {
          assert c in cands[1..];
          RoundAsksClosest(cands[1..], queried, target, limit - 1, c);
        }
      } else {
        assert c in cands[1..];
        RoundAsksClosest(cands[1..], queried, target, limit, c);
      }
    }
  }

  /** In any state of the search, what the next round asks are the closest unqueried candidates. */
  lemma NextRoundAsksClosest(s: State, target: NodeId, c: Candidate)
    requires Inv(s) && c in s.candidates && c.id !in s.queried
    ensures var qs := Select(Sorted(s, target).candidates, s.queried, ALPHA);
      c.id in Ids(qs)
      || (|qs| == ALPHA && forall i :: 0 <= i < |qs| ==> Dist(qs[i].id, target) < Dist(c.id, target))
  {
    hide Dist, Select, SortByKey, AllQueries, BucketInv;
    var sorted := Sorted(s, target).candidates;
    var qs := Select(sorted, s.queried, ALPHA);
    SortSorts(s.candidates, CandidateDist(target));
    SortKeeps(s.candidates, s.queried, target);
    var k :| 0 <= k < |s.candidates| && s.candidates[k] == c;
    RoundAsksClosest(sorted, s.queried, target, ALPHA, c);
    if c.id !in Ids(qs) {
      forall i | 0 <= i < |qs|
        ensures Dist(qs[i].id, target) < Dist(c.id, target)
      {
        DistInjective(qs[i].id, c.id, target);
        assert Ids(qs)[i] == qs[i].id && Ids(qs)[i] in Ids(qs);
      }
    }
  }

  /** A run of a + b rounds that was not over after a rounds goes on from the state it had then. */
  lemma {:induction false} RunSplits(s: State, target: NodeId, net: Network, a: nat, b: nat)
    requires Shaped(s.table)
    ensures var (t, stop) := Run(s, target, net, a);
      Shaped(t.table)
      && Run(s, target, net, a + b) == if stop == Capped then Run(t, target, net, b) else (t, stop)
    decreases a
  {
    hide PlayRound, NothingCloser, Select, SortByKey;
    if a > 0 {
      var sorted := Sorted(s, target);
      var qs := Select(sorted.candidates, sorted.queried, ALPHA);
      if qs != [] && !NothingCloser(PlayRound(sorted, qs, net).candidates, target) {
        RunSplits(PlayRound(sorted, qs, net), target, net, a - 1, b);
      }
    }
  }

  /** In every run, each round that is played asks the closest candidates not asked in earlier rounds. */
  lemma EveryRoundAsksClosest(table: Table, target: NodeId, net: Network, k: nat, c: Candidate)
    requires TableInv(table) && k < MAX_ROUNDS
    requires Run(Start(table, target), target, net, k).1 == Capped
    requires var s := Run(Start(table, target), target, net, k).0;
      c in s.candidates && c.id !in s.queried
    ensures var s := Run(Start(table, target), target, net, k).0;
      var qs := Select(Sorted(s, target).candidates, s.queried, ALPHA);
      && |s.rounds| == k && Shaped(s.table)
      && Run(Start(table, target), target, net, MAX_ROUNDS) == Run(s, target, net, MAX_ROUNDS - k)
      && (c.id in Ids(qs)
          || (|qs| == ALPHA && forall i :: 0 <= i < |qs| ==> Dist(qs[i].id, target) < Dist(c.id, target)))
  {
    hide Run, Start, BucketInv, Dist, Select, SortByKey;
    StartInv(table, target);
    StartRounds(table, target);
    RunIs(Start(table, target), target, net, k);
    RunSplits(Start(table, target), target, net, k, MAX_ROUNDS - k);
    NextRoundAsksClosest(Run(Start(table, target), target, net, k).0, target, c);
  }

  lemma {:induction false} MinDistIs(cands: seq<Candidate>, st: CandidateState, target: NodeId)
    ensures var m := MinDist(cands, st, target);
      && (m.Some? ==> exists c :: c in cands && c.state == st && Dist(c.id, target) == m.value)
      && (forall c :: c in cands && c.state == st ==> m.Some? && m.value <= Dist(c.id, target))
  {
    hide Dist;
    if cands != [] {
      MinDistIs(cands[1..], st, target);
      assert cands == [cands[0]] + cands[1..];
      var rest := MinDist(cands[1..], st, target);
      if rest.Some? {
        var c :| c in cands[1..] && c.state == st && Dist(c.id, target) == rest.value;
        assert c in cands;
      }
    }
  }

  /** No candidate left unqueried is closer than the closest responder. */
  ghost predicate SearchedEnough(s: State, target: NodeId) {
    forall c :: c in s.candidates && c.state == NotQueried ==>
      exists r :: r in s.candidates && r.state == Responded && Dist(r.id, target) <= Dist(c.id, target)
  }

  lemma ConvergedIsEnough(s: State, target: NodeId)
    requires NothingCloser(s.candidates, target)
    ensures SearchedEnough(s, target)
  {
    hide Dist;
    MinDistIs(s.candidates, Responded, target);
    MinDistIs(s.candidates, NotQueried, target);
  }

  lemma {:induction false} NothingSelected(cands: seq<Candidate>, queried: set<NodeId>, limit: nat)
    requires Select(cands, queried, limit) == [] && limit > 0
    ensures forall c :: c in cands ==> !Eligible(c, queried)
  {
    if cands != [] {
      assert cands == [cands[0]] + cands[1..];
      NothingSelected(cands[1..], queried, limit);
    }
  }

  lemma {:induction false} RunIs(s: State, target: NodeId, net: Network, left: nat)
    requires Inv(s)
    ensures var (t, stop) := Run(s, target, net, left);
      && Inv(t)
      && |t.rounds| <= |s.rounds| + left
      && (stop == Capped ==> |t.rounds| == |s.rounds| + left)
      && (stop != Capped ==> SearchedEnough(t, target))
    decreases left
  {
    hide Consistent, BucketInv, Select, PlayRound, NothingCloser, SortByKey, AllQueries, SearchedEnough;
    if left > 0 {
      var sorted := Sorted(s, target);
      SortKeeps(s.candidates, s.queried, target);
      var qs := Select(sorted.candidates, sorted.queried, ALPHA);
      if qs == [] {
        ExhaustedIsEnough(sorted, target);
      } else {
        RoundKeeps(sorted, net, qs);
        var next := PlayRound(sorted, qs, net);
        if NothingCloser(next.candidates, target) {
          ConvergedIsEnough(next, target);
        } else {
          RunIs(next, target, net, left - 1);
        }
      }
    }
  }

  lemma ExhaustedIsEnough(s: State, target: NodeId)
    requires Inv(s) && Select(s.candidates, s.queried, ALPHA) == []
    ensures SearchedEnough(s, target)
  {
    hide Select, BucketInv, AllQueries;
    NothingSelected(s.candidates, s.queried, ALPHA);
  }

  lemma StartInv(table: Table, target: NodeId)
    requires TableInv(table)
    ensures Inv(Start(table, target))
  {
    hide ClosestNodes, BucketInv, Dist;
    ClosestAreNearest(table, target, K);
    var nodes := ClosestNodes(table, target, K);
    forall i, j | 0 <= i < j < |nodes|
      ensures nodes[i].id != nodes[j].id
    {
      assert Dist(nodes[i].id, target) < Dist(nodes[j].id, target);
    }
  }

  /**
   * Every lookup, on any network: no id is queried twice, at most 60 queries are sent, the routing
   * table stays well formed, and stopping before the cap means no unqueried candidate is closer than
   * the closest responder.
   */
  lemma LookupCorrect(table: Table, target: NodeId, net: Network)
    requires TableInv(table)
    ensures var (s, stop) := Run(Start(table, target), target, net, MAX_ROUNDS);
      && DistinctIds(s.candidates)
      && NoDuplicates(AllQueries(s.rounds))
      && |AllQueries(s.rounds)| <= 60
      && TableInv(s.table)
      && (stop == Capped ==> |s.rounds| == MAX_ROUNDS)
      && (stop != Capped ==> SearchedEnough(s, target))
  {
    hide Run, Start, BucketInv, AllQueries, SearchedEnough;
    StartInv(table, target);
    assert Start(table, target).rounds == [] by {
      StartRounds(table, target);
    }
    RunIs(Start(table, target), target, net, MAX_ROUNDS);
  }

  lemma StartRounds(table: Table, target: NodeId)
    requires Shaped(table)
    ensures Start(table, target).rounds == []
  {
  }

  // ------------------------------------------------------------ the search

  lemma RunUnfolds(s: State, target: NodeId, net: Network, left: nat)
    requires Shaped(s.table)
    ensures left == 0 ==> Run(s, target, net, left) == (s, Capped)
    ensures left > 0 ==>
      var sorted := Sorted(s, target);
      var qs := Select(sorted.candidates, sorted.queried, ALPHA);
      var next := PlayRound(sorted, qs, net);
      Run(s, target, net, left)
      == if qs == [] then (sorted, Exhausted)
         else if NothingCloser(next.candidates, target) then (next, Converged)
         else Run(next, target, net, left - 1)
  {
  }

  /** What the search does with the outcome of one query. */
  method ReceiveReply(table: RoutingTable, q: Query, outcome: Outcome, cands: seq<Candidate>,
                      tokens: seq<(NodeId, SocketAddr, Option<Bytes>)>,
                      ghost queried: set<NodeId>, ghost rounds: seq<seq<NodeId>>)
    returns (newCands: seq<Candidate>, newTokens: seq<(NodeId, SocketAddr, Option<Bytes>)>)
    requires table.Valid()
    modifies table
    ensures table.Valid()
    ensures State(newCands, queried, newTokens, table.View(), rounds)
         == Receive(State(cands, queried, tokens, old(table.View()), rounds), q, outcome)
  {
    hide InsertOrUpdate, UpdateNode, SetState, AddNodes, BucketInv;
    newCands, newTokens := cands, tokens;
    match outcome
    case TaskLost =>
    case NoReply =>
      newCands := SetState(newCands, q.id, Failed);
      table.NoteFailed(q.id);
    case Reply(resp) =>
      newCands := SetState(newCands, q.id, Responded);
      var _ := table.Insert(resp.id, q.addr);
      table.NoteGood(resp.id);
      newTokens := newTokens + [(resp.id, q.addr, resp.Token())];
      newCands := AddNodes(newCands, resp.Nodes());
  }

  method IterativeGetPeers(table: RoutingTable, target: NodeId, net: Network)
    returns (tokens: seq<(NodeId, SocketAddr, Option<Bytes>)>, ghost final: State, ghost stop: Stop)
    requires table.Valid()
    modifies table
    ensures table.Valid()
    ensures (final, stop) == Run(Start(old(table.View()), target), target, net, MAX_ROUNDS)
    ensures tokens == final.tokens && table.View() == final.table
  {
    hide Run, Dist, ClosestNodes, Select, SetState, Receive, BucketInv, SortByKey, NothingCloser, Seeds;
    var nodes := table.Closest(target, K);
    var candidates := Seeds(nodes);
    var queried: set<NodeId> := {};
    tokens := [];
    ghost var rounds: seq<seq<NodeId>> := [];
    ghost var goal := Run(Start(table.View(), target), target, net, MAX_ROUNDS);
    for i := 0 to MAX_ROUNDS
      invariant table.Valid() && |rounds| == i
      invariant goal == Run(State(candidates, queried, tokens, table.View(), rounds), target, net, MAX_ROUNDS - i)
    {
      ghost var before := State(candidates, queried, tokens, table.View(), rounds);
      candidates := SortByKey(candidates, CandidateDist(target));
      var toQuery := Select(candidates, queried, ALPHA);
      ghost var s := State(candidates, queried, tokens, table.View(), rounds);
      RunUnfolds(before, target, net, MAX_ROUNDS - i);
      if toQuery == [] {
        final, stop := s, Exhausted;
        return;
      }
      for k := 0 to |toQuery|
        invariant Launch(s, toQuery[..k]) == s.(candidates := candidates, queried := queried)
      {
        assert toQuery[..k + 1][..k] == toQuery[..k];
        queried := queried + {toQuery[k].id};
        candidates := SetState(candidates, toQuery[k].id, InFlight);
      }
      assert toQuery[..|toQuery|] == toQuery;
      rounds := rounds + [Ids(toQuery)];
      ghost var launched := State(candidates, queried, tokens, table.View(), rounds);
      for k := 0 to |toQuery|
        invariant table.Valid()
        invariant ReceiveAll(launched, toQuery[..k], net, i)
               == State(candidates, queried, tokens, table.View(), rounds)
      {
        assert toQuery[..k + 1][..k] == toQuery[..k];
        candidates, tokens :=
          ReceiveReply(table, toQuery[k], net(i, toQuery[k].id), candidates, tokens, queried, rounds);
      }
      assert toQuery[..|toQuery|] == toQuery;
      assert State(candidates, queried, tokens, table.View(), rounds) == PlayRound(s, toQuery, net);
      if NothingCloser(candidates, target) {
        final, stop := State(candidates, queried, tokens, table.View(), rounds), Converged;
        return;
      }
    }
    RunUnfolds(State(candidates, queried, tokens, table.View(), rounds), target, net, 0);
    final, stop := State(candidates, queried, tokens, table.View(), rounds), Capped;
  }
}
