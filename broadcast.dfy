/** The broadcast round of the trade-validation vote (blockchain/consensus/byzantine_broadcast.py):
    a proposal goes to every node, every honest node votes, every node receives every vote, and node 0's
    decision, when it has one, is recorded as the round's result. */
module Broadcast {
  import opened Wrappers
  import opened ConsensusNode

  /** What a node holds besides its identity, as a value. */
  datatype NodeState = NodeState(isHonest: bool, receivedVotes: map<int, seq<Vote>>,
                                 receivedProposals: map<int, Proposal>, decisions: map<int, bool>)

  function StateOf(n: Node): NodeState
    reads n
  {
    NodeState(n.isHonest, n.receivedVotes, n.receivedProposals, n.decisions)
  }

  /** The states of the nodes, in order. */
  function States(ns: seq<Node>): (s: seq<NodeState>)
    reads ns
    ensures |s| == |ns| && forall i :: 0 <= i < |ns| ==> s[i] == StateOf(ns[i])
  {
    seq(|ns|, i requires 0 <= i < |ns| reads ns => StateOf(ns[i]))
  }

  /** The ids of the nodes, in order. */
  function Ids(ns: seq<Node>): (ids: seq<int>)
    ensures |ids| == |ns| && forall i :: 0 <= i < |ns| ==> ids[i] == ns[i].nodeId
  {
    seq(|ns|, i requires 0 <= i < |ns| => ns[i].nodeId)
  }

  /** The honesty flags of the node states. */
  function Honesty(s: seq<NodeState>): (h: seq<bool>)
    ensures |h| == |s| && forall i :: 0 <= i < |s| ==> h[i] == s[i].isHonest
  {
    seq(|s|, i requires 0 <= i < |s| => s[i].isHonest)
  }

  /** The votes cast on `p` by those of the first `n` nodes whose flag in `honest` is set, in node order:
      each names its voter, carries the proposal's round and accepts exactly an acceptable trade. */
  function Ballots(ids: seq<int>, honest: seq<bool>, p: Proposal, n: nat): (votes: seq<Vote>)
    requires n <= |ids| == |honest|
    ensures |votes| <= n
    ensures forall k :: 0 <= k < |votes| ==>
              votes[k].roundNumber == p.roundNumber && votes[k].decision == Accepts(p.tradeData)
  {
    if n == 0 then []
    else Ballots(ids, honest, p, n - 1) + (if honest[n - 1] then [Vote(ids[n - 1], Accepts(p.tradeData), p.roundNumber)] else [])
  }

  /** When all of the first `n` nodes are honest, each of them casts a ballot. */
  lemma {:induction false} FullBallots(ids: seq<int>, honest: seq<bool>, p: Proposal, n: nat)
    requires n <= |ids| == |honest| && forall i :: 0 <= i < n ==> honest[i]
    ensures |Ballots(ids, honest, p, n)| == n
  {
    if n > 0 {
      FullBallots(ids, honest, p, n - 1);
    }
  }

  /** The votes of the honest nodes among `s` on `p`. */
  function HonestVotes(ids: seq<int>, s: seq<NodeState>, p: Proposal): seq<Vote>
    requires |ids| == |s|
  {
    Ballots(ids, Honesty(s), p, |s|)
  }

  /** Every node is honest. */
  predicate AllHonest(s: seq<NodeState>) {
    forall i :: 0 <= i < |s| ==> s[i].isHonest
  }

  /** Python indexing of a list, negative indices counting from the end. */
  function PyIndex(i: int, n: nat): (k: nat)
    requires -(n as int) <= i < n
    ensures k < n && (i >= 0 ==> k == i) && (i < 0 ==> k == n + i)
  {
    if i >= 0 then i else n + i
  }

  /** A round's votes after receiving `vs` one by one: a round without votes gets an entry only once a
      vote arrives. */
  function Appended(m: map<int, seq<Vote>>, roundNum: int, vs: seq<Vote>): (r: map<int, seq<Vote>>)
    ensures vs == [] ==> r == m
    ensures vs != [] ==> r.Keys == m.Keys + {roundNum} && r[roundNum] == (if roundNum in m then m[roundNum] else []) + vs
    ensures forall k :: k in m && k != roundNum ==> r[k] == m[k]
  {
    if vs == [] then m else m[roundNum := (if roundNum in m then m[roundNum] else []) + vs]
  }

  /** Receiving one more vote extends the round's list by it. */
  lemma AppendedStep(m: map<int, seq<Vote>>, roundNum: int, vs: seq<Vote>, v: Vote)
    ensures var m' := Appended(m, roundNum, vs);
            Appended(m, roundNum, vs + [v]) == m'[roundNum := (if roundNum in m' then m'[roundNum] else []) + [v]]
  {
    var base := if roundNum in m then m[roundNum] else [];
    if vs != [] {
      assert base + (vs + [v]) == (base + vs) + [v];
      var m' := m[roundNum := base + vs];
      assert Appended(m, roundNum, vs) == m';
      assert Appended(m, roundNum, vs + [v]) == m[roundNum := (base + vs) + [v]];
      assert m'[roundNum := (base + vs) + [v]] == m[roundNum := (base + vs) + [v]];
    } else {
      assert vs + [v] == [v];
    }
  }

  /** A node state after storing the proposal under its round. */
  function Proposed(s: NodeState, p: Proposal): NodeState {
    s.(receivedProposals := s.receivedProposals[p.roundNumber := p])
  }

  /** A node state after receiving the round's votes. */
  function Delivered(s: NodeState, roundNum: int, votes: seq<Vote>): NodeState {
    s.(receivedVotes := Appended(s.receivedVotes, roundNum, votes))
  }

  /** The node states after a round on `p` in which `votes` were cast. */
  function AfterRound(s: seq<NodeState>, p: Proposal, votes: seq<Vote>): (r: seq<NodeState>)
    ensures |r| == |s| && forall i :: 0 <= i < |s| ==> r[i] == Delivered(Proposed(s[i], p), p.roundNumber, votes)
  {
    seq(|s|, i requires 0 <= i < |s| => Delivered(Proposed(s[i], p), p.roundNumber, votes))
  }

  /** A round leaves the honesty flags as they were, stores `p` under its round at every node without
      touching the other rounds' proposals, and adds at most its own round to node 0's votes. */
  lemma RoundStep(before: seq<NodeState>, after: seq<NodeState>, ids: seq<int>, p: Proposal)
    requires |ids| == |before| && after == AfterRound(before, p, HonestVotes(ids, before, p))
    ensures Honesty(after) == Honesty(before)
    ensures forall j :: 0 <= j < |after| ==>
              p.roundNumber in after[j].receivedProposals && after[j].receivedProposals[p.roundNumber] == p
    ensures forall j, r :: 0 <= j < |after| && r in before[j].receivedProposals && r != p.roundNumber ==>
              r in after[j].receivedProposals && after[j].receivedProposals[r] == before[j].receivedProposals[r]
    ensures |after| > 0 ==> after[0].receivedVotes.Keys <= before[0].receivedVotes.Keys + {p.roundNumber}
  {
  }

  /** A round on a round number node 0 has no votes for, among n >= 1 nodes that are all honest, leaves
      node 0 deciding exactly whether the trade is acceptable. */
  lemma HonestRoundDecides(ids: seq<int>, s: seq<NodeState>, p: Proposal, totalNodes: int)
    requires |ids| == |s| == totalNodes >= 1 && AllHonest(s) && p.roundNumber !in s[0].receivedVotes
    ensures var after := AfterRound(s, p, HonestVotes(ids, s, p));
            p.roundNumber in after[0].receivedVotes &&
            Decide(after[0].receivedVotes[p.roundNumber], totalNodes) == Some(Accepts(p.tradeData))
  {
    var votes := HonestVotes(ids, s, p);
    FullBallots(ids, Honesty(s), p, |s|);
    var after := AfterRound(s, p, votes);
    assert after[0] == Delivered(Proposed(s[0], p), p.roundNumber, votes);
    assert after[0].receivedVotes[p.roundNumber] == [] + votes == votes;
    UnanimousDecision(votes, totalNodes, Accepts(p.tradeData));
  }

  /** A dictionary's `get`: the value under `key`, or None. */
  function Lookup(m: map<int, bool>, key: int): (r: Option<bool>)
    ensures r.Some? <==> key in m
    ensures r.Some? ==> r.value == m[key]
  {
    if key in m then Some(m[key]) else None
  }

  /** After `i` simulated rounds from round `first`: one result per round, each the round's recorded result. */
  ghost predicate Tallied(results: map<int, Option<bool>>, roundResults: map<int, bool>, first: int, i: nat) {
    && (forall r :: r in results <==> first < r <= first + i)
    && forall r :: r in results ==> results[r] == Lookup(roundResults, r)
  }

  /** Recording one more round's result keeps the tally. */
  lemma TalliedStep(results: map<int, Option<bool>>, before: map<int, bool>, after: map<int, bool>,
                    first: int, i: nat, result: Option<bool>)
    requires Tallied(results, before, first, i)
    requires forall r :: r != first + i + 1 ==> Lookup(after, r) == Lookup(before, r)
    requires result == Lookup(after, first + i + 1)
    ensures Tallied(results[first + i + 1 := result], after, first, i + 1)
  {
  }

  /** The proposal of the k-th trade of a simulation from round `first`: node k % n proposes it for
      round first + k + 1. */
  function SimulatedProposal(ids: seq<int>, tradesData: seq<TradeData>, first: int, k: nat): Proposal
    requires |ids| > 0 && k < |tradesData|
  {
    Proposal(ids[k % |ids|], tradesData[k], first + k + 1)
  }

  /** The node holds `p` as its round's proposal. */
  predicate Stores(s: NodeState, p: Proposal) {
    p.roundNumber in s.receivedProposals && s.receivedProposals[p.roundNumber] == p
  }

  /** After `i` rounds of a simulation from round `first`, every node holds each round's proposal. */
  ghost predicate Broadcasted(s: seq<NodeState>, ids: seq<int>, tradesData: seq<TradeData>, first: int, i: nat)
    requires |ids| == |s|
  {
    i <= |tradesData| &&
    forall k, j :: 0 <= k < i && 0 <= j < |s| ==> Stores(s[j], SimulatedProposal(ids, tradesData, first, k))
  }

  /** One more round adds its proposal at every node. */
  lemma BroadcastedStep(before: seq<NodeState>, after: seq<NodeState>, ids: seq<int>, tradesData: seq<TradeData>,
                        first: int, i: nat, p: Proposal)
    requires |ids| == |before| > 0 && i < |tradesData| && Broadcasted(before, ids, tradesData, first, i)
    requires p == SimulatedProposal(ids, tradesData, first, i)
    requires after == AfterRound(before, p, HonestVotes(ids, before, p))
    ensures Broadcasted(after, ids, tradesData, first, i + 1)
  {
    RoundStep(before, after, ids, p);
    forall k, j | 0 <= k < i + 1 && 0 <= j < |after|
      ensures Stores(after[j], SimulatedProposal(ids, tradesData, first, k))
    {
      if k < i {
        assert Stores(before[j], SimulatedProposal(ids, tradesData, first, k));
      }
    }
  }

  /** The state of a simulation of `tradesData` from round `first` after `i` rounds, as values: the
      results so far against the recorded results `rr`, and the node states `s` (which started as `start`)
      against the trades; `clean` says whether the nodes were all honest, node 0 counting `totalNodes` of
      them, with no votes beyond round `first`. */
  ghost predicate Progress(results: map<int, Option<bool>>, rr: map<int, bool>, s: seq<NodeState>, ids: seq<int>,
                           tradesData: seq<TradeData>, first: int, i: nat, start: seq<NodeState>, clean: bool,
                           totalNodes: int)
  {
    && |ids| == |s| == |start|
    && Tallied(results, rr, first, i)
    && Honesty(s) == Honesty(start)
    && Broadcasted(s, ids, tradesData, first, i)
    && (clean ==> |s| > 0 && totalNodes == |s| && AllHonest(start)
                  && (forall r :: r in s[0].receivedVotes ==> r <= first + i)
                  && (forall k :: 0 <= k < i ==> results[first + k + 1] == Some(Accepts(tradesData[k]))))
  }

  /** One more round keeps the simulation's progress. */
  lemma ProgressStep(results: map<int, Option<bool>>, rr: map<int, bool>, rr': map<int, bool>,
                     s: seq<NodeState>, s': seq<NodeState>, ids: seq<int>, tradesData: seq<TradeData>, first: int,
                     i: nat, start: seq<NodeState>, clean: bool, totalNodes: int, p: Proposal, result: Option<bool>)
    requires Progress(results, rr, s, ids, tradesData, first, i, start, clean, totalNodes)
    requires i < |tradesData| && |ids| > 0
    requires p == SimulatedProposal(ids, tradesData, first, i)
    requires s' == AfterRound(s, p, HonestVotes(ids, s, p))
    requires rr' == RecordedResult(rr, first + i + 1, Consensus(s'[0].receivedVotes, totalNodes, first + i + 1))
    requires result == Lookup(rr', first + i + 1)
    ensures Progress(results[first + i + 1 := result], rr', s', ids, tradesData, first, i + 1, start, clean, totalNodes)
  {
    RoundStep(s, s', ids, p);
    BroadcastedStep(s, s', ids, tradesData, first, i, p);
    TalliedStep(results, rr, rr', first, i, result);
    if clean {
      assert AllHonest(s) by {
        forall j | 0 <= j < |s| ensures s[j].isHonest {
          assert Honesty(s)[j] == Honesty(start)[j];
        }
      }
      HonestRoundDecides(ids, s, p, totalNodes);
    }
  }

  /** The round results after node 0's check: the decision is recorded only when there is one. */
  function RecordedResult(results: map<int, bool>, roundNum: int, decision: Option<bool>): map<int, bool> {
    if decision.Some? then results[roundNum := decision.value] else results
  }

  class ByzantineBroadcast {
    const nodes: seq<Node>
    const totalNodes: nat
    /** The position of each node in `nodes`, which records that no node appears twice. */
    ghost const indexOf: map<Node, nat>
    var currentRound: int
    var roundResults: map<int, bool>

    /** Each node appears once in `nodes`. */
    ghost predicate Valid() {
      && totalNodes == |nodes|
      && (forall i :: 0 <= i < |nodes| ==> nodes[i] in indexOf && indexOf[nodes[i]] == i)
    }

    constructor(nodes: seq<Node>)
      requires forall i, j :: 0 <= i < j < |nodes| ==> nodes[i] != nodes[j]
      ensures Valid() && this.nodes == nodes && currentRound == 0 && roundResults == map[]
    {
      this.nodes := nodes;
      totalNodes := |nodes|;
      indexOf := map i | 0 <= i < |nodes| :: nodes[i] := i;
      currentRound := 0;
      roundResults := map[];
    }

    /** A trade proposed by node `proposerId` (a Python index into `nodes`) runs one round: every node
        stores the proposal and receives the honest nodes' votes, and node 0's decision is recorded. The
        round number moves on first, so a proposer index out of range raises an IndexError after it has. */
    method ProposeTrade(proposerId: int, tradeData: TradeData) returns (r: Result<int>, ghost sent: Proposal)
      requires Valid()
      modifies this, nodes
      ensures currentRound == old(currentRound) + 1
      ensures r.Ok? <==> -|nodes| <= proposerId < |nodes|
      ensures r.Err? ==> r.error == IndexError && States(nodes) == old(States(nodes)) && roundResults == old(roundResults)
      ensures r.Ok? ==> r.value == currentRound
      ensures r.Ok? ==> sent == Proposal(nodes[PyIndex(proposerId, |nodes|)].nodeId, tradeData, currentRound)
      ensures r.Ok? ==> States(nodes) == AfterRound(old(States(nodes)), sent, HonestVotes(Ids(nodes), old(States(nodes)), sent))
      ensures r.Ok? ==> roundResults == RecordedResult(old(roundResults), currentRound, nodes[0].CheckConsensus(currentRound))
    {
      ghost var before := States(nodes);
      currentRound := currentRound + 1;
      var roundNum := currentRound;
      sent := Proposal(0, tradeData, roundNum);
      if !(-|nodes| <= proposerId < |nodes|) {
        return Err(IndexError), sent;
      }

      // Step 1: Proposer creates proposal
      var proposer := nodes[PyIndex(proposerId, |nodes|)];
      var proposal := proposer.CreateProposal(tradeData, roundNum);
      sent := proposal;

      // Steps 2 to 4: broadcast the proposal, vote, broadcast the votes
      var votes := ExchangeMessages(proposal, before);

      // Step 5: Check for consensus
      RecordConsensus(roundNum);
      r := Ok(roundNum);
    }

    /** Step 5 of a round: node 0's decision on the round, when it has one, becomes the round's result. */
    method RecordConsensus(roundNum: int)
      requires |nodes| > 0
      modifies this
      ensures currentRound == old(currentRound)
      ensures roundResults == RecordedResult(old(roundResults), roundNum, nodes[0].CheckConsensus(roundNum))
    {
      var consensusResult := nodes[0].CheckConsensus(roundNum);
      if consensusResult.Some? {
        roundResults := roundResults[roundNum := consensusResult.value];
      }
    }

    /** Steps 2 to 4 of a round, from the node states `before`. */
    method ExchangeMessages(proposal: Proposal, ghost before: seq<NodeState>) returns (votes: seq<Vote>)
      requires Valid() && before == States(nodes)
      modifies nodes
      ensures votes == HonestVotes(Ids(nodes), before, proposal)
      ensures States(nodes) == AfterRound(before, proposal, votes)
    {
      // Step 2: Broadcast proposal to all nodes
      StoreProposal(proposal);
      assert Honesty(States(nodes)) == Honesty(before);

      // Step 3: Each node votes
      votes := CollectVotes(proposal);

      // Step 4: Broadcast votes to all nodes
      DeliverVotes(proposal.roundNumber, votes);
    }

    method StoreProposal(proposal: Proposal)
      requires Valid()
      modifies nodes
      ensures forall j :: 0 <= j < |nodes| ==> StateOf(nodes[j]) == Proposed(old(StateOf(nodes[j])), proposal)
    {
      for i := 0 to |nodes|
        invariant forall j :: 0 <= j < i ==> StateOf(nodes[j]) == Proposed(old(StateOf(nodes[j])), proposal)
        invariant forall j :: i <= j < |nodes| ==> StateOf(nodes[j]) == old(StateOf(nodes[j]))
      {
        nodes[i].receivedProposals := nodes[i].receivedProposals[proposal.roundNumber := proposal];
      }
    }

    /** The votes of the honest nodes, in node order. */
    method CollectVotes(proposal: Proposal) returns (votes: seq<Vote>)
      ensures votes == HonestVotes(Ids(nodes), States(nodes), proposal)
    {
      votes := [];
      for i := 0 to |nodes|
        invariant votes == Ballots(Ids(nodes), Honesty(States(nodes)), proposal, i)
      {
        if nodes[i].isHonest {
          var vote := nodes[i].VoteOnProposal(proposal);
          votes := votes + [vote];
        }
      }
    }

    /** Every node receives every vote, in order. */
    method DeliverVotes(roundNum: int, votes: seq<Vote>)
      requires Valid()
      requires forall k :: 0 <= k < |votes| ==> votes[k].roundNumber == roundNum
      modifies nodes
      ensures forall j :: 0 <= j < |nodes| ==> StateOf(nodes[j]) == Delivered(old(StateOf(nodes[j])), roundNum, votes)
    {
      for i := 0 to |nodes|
        invariant forall j :: 0 <= j < i ==> StateOf(nodes[j]) == Delivered(old(StateOf(nodes[j])), roundNum, votes)
        invariant forall j :: i <= j < |nodes| ==> StateOf(nodes[j]) == old(StateOf(nodes[j]))
      {
        var node := nodes[i];
        for k := 0 to |votes|
          modifies node
          invariant StateOf(node) == Delivered(old(StateOf(node)), roundNum, votes[..k])
        {
          assert votes[..k + 1] == votes[..k] + [votes[k]];
          AppendedStep(old(node.receivedVotes), roundNum, votes[..k], votes[k]);
          node.ReceiveVote(votes[k]);
        }
        assert votes[..|votes|] == votes;
      }
    }

    /** One round per trade, node i % n proposing the i-th trade; each round's result as read back
        right after it. Without nodes the first trade's `i % n` raises a ZeroDivisionError before any round. */
    method SimulateConsensusRounds(tradesData: seq<TradeData>) returns (out: Result<map<int, Option<bool>>>)
      requires Valid()
      modifies this, nodes
      ensures out.Err? <==> tradesData != [] && totalNodes == 0
      ensures out.Err? ==> out.error == ZeroDivisionError && currentRound == old(currentRound)
                           && roundResults == old(roundResults) && States(nodes) == old(States(nodes))
      ensures out.Ok? ==> currentRound == old(currentRound) + |tradesData|
      ensures out.Ok? ==> forall r :: r in out.value <==> old(currentRound) < r <= currentRound
      ensures out.Ok? ==> forall r :: r in out.value ==> out.value[r] == GetConsensusResult(r)
      ensures forall k, j :: out.Ok? && 0 <= k < |tradesData| && 0 <= j < |nodes| ==>
                Stores(StateOf(nodes[j]), SimulatedProposal(Ids(nodes), tradesData, old(currentRound), k))
      ensures AllHonest(old(States(nodes))) && |nodes| > 0 && nodes[0].totalNodes == |nodes| &&
              (forall r :: r in old(nodes[0].receivedVotes) ==> r <= old(currentRound)) ==>
                out.Ok? && forall k :: 0 <= k < |tradesData| ==> out.value[old(currentRound) + k + 1] == Some(Accepts(tradesData[k]))
    {
      if tradesData != [] && totalNodes == 0 {
        return Err(ZeroDivisionError);
      }
      var results := SimulateAll(tradesData);
      out := Ok(results);
    }

    /** The rounds of a simulation with nodes to propose, or with no trade. */
    method SimulateAll(tradesData: seq<TradeData>) returns (results: map<int, Option<bool>>)
      requires Valid()
      requires tradesData != [] ==> totalNodes > 0
      modifies this, nodes
      ensures currentRound == old(currentRound) + |tradesData|
      ensures forall r :: r in results <==> old(currentRound) < r <= currentRound
      ensures forall r :: r in results ==> results[r] == GetConsensusResult(r)
      ensures forall k, j :: 0 <= k < |tradesData| && 0 <= j < |nodes| ==>
                Stores(StateOf(nodes[j]), SimulatedProposal(Ids(nodes), tradesData, old(currentRound), k))
      ensures AllHonest(old(States(nodes))) && |nodes| > 0 && nodes[0].totalNodes == |nodes| &&
              (forall r :: r in old(nodes[0].receivedVotes) ==> r <= old(currentRound)) ==>
                forall k :: 0 <= k < |tradesData| ==> results[old(currentRound) + k + 1] == Some(Accepts(tradesData[k]))
    {
      ghost var first := currentRound;
      ghost var start := States(nodes);
      ghost var clean := AllHonest(start) && |nodes| > 0 && nodes[0].totalNodes == |nodes| &&
                         (forall r :: r in start[0].receivedVotes ==> r <= first);
      ghost var cur := start;
      ghost var total := if |nodes| > 0 then nodes[0].totalNodes else 0;
      results := map[];
      for i := 0 to |tradesData|
        invariant currentRound == first + i && cur == States(nodes)
        invariant Progress(results, roundResults, cur, Ids(nodes), tradesData, first, i, start, clean, total)
      {
        results, cur := SimulateRound(results, tradesData, first, i, start, clean, cur, total);
      }
      forall k, j | 0 <= k < |tradesData| && 0 <= j < |nodes|
        ensures Stores(StateOf(nodes[j]), SimulatedProposal(Ids(nodes), tradesData, first, k))
      {
        assert cur[j] == StateOf(nodes[j]);
      }
    }

    /** The loop body of a simulation: round `i`. */
    method SimulateRound(results: map<int, Option<bool>>, tradesData: seq<TradeData>, ghost first: int, i: nat,
                         ghost start: seq<NodeState>, ghost clean: bool, ghost cur: seq<NodeState>, ghost total: int)
      returns (results': map<int, Option<bool>>, ghost cur': seq<NodeState>)
      requires Valid() && i < |tradesData| && totalNodes > 0 && total == nodes[0].totalNodes
      requires currentRound == first + i && cur == States(nodes)
      requires Progress(results, roundResults, cur, Ids(nodes), tradesData, first, i, start, clean, total)
      modifies this, nodes
      ensures currentRound == first + i + 1 && cur' == States(nodes)
      ensures Progress(results', roundResults, cur', Ids(nodes), tradesData, first, i + 1, start, clean, total)
    {
      ghost var rr := roundResults;
      ghost var ids := Ids(nodes);
      var proposerId := i % totalNodes;
      ghost var p := SimulatedProposal(ids, tradesData, first, i);
      assert p == Proposal(nodes[PyIndex(proposerId, |nodes|)].nodeId, tradesData[i], first + i + 1);
      var round, sent := ProposeTrade(proposerId, tradesData[i]);
      var roundNum := round.value;
      assert sent == p && roundNum == first + i + 1;
      var result := GetConsensusResult(roundNum);
      cur' := States(nodes);
      assert cur' == AfterRound(cur, p, HonestVotes(ids, cur, p));
      assert cur'[0] == StateOf(nodes[0]);
      assert roundResults == RecordedResult(rr, first + i + 1, Consensus(cur'[0].receivedVotes, total, first + i + 1));
      assert Progress(results, rr, cur, ids, tradesData, first, i, start, clean, total);
      assert i < |tradesData| && |ids| > 0;
      assert result == Lookup(roundResults, first + i + 1);
      ProgressStep(results, rr, roundResults, cur, cur', ids, tradesData, first, i, start, clean, total, p, result);
      results' := results[roundNum := result];
    }

    function GetConsensusResult(roundNum: int): (r: Option<bool>)
      reads this
      ensures r == Lookup(roundResults, roundNum)
    {
      if roundNum in roundResults then Some(roundResults[roundNum]) else None
    }
  }
}
