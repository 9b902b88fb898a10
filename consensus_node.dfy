/** A consensus node of the trade-validation vote (blockchain/consensus/consensus_node.py), with the
    vote and proposal messages it exchanges (blockchain/consensus/message_types.py). */
module ConsensusNode {
  import opened Wrappers

  /** The part of a trade's data dictionary the vote reads: its `value` entry, absent or present. */
  datatype TradeData = TradeData(value: Option<real>)

  datatype Vote = Vote(voterId: int, decision: bool, roundNumber: int)

  datatype Proposal = Proposal(proposerId: int, tradeData: TradeData, roundNumber: int)

  /** The bound on a reasonable trade value. */
  const MaxTradeValue: real := 1000000.0

  /** A value a node accepts: strictly between 0 and 1,000,000. */
  predicate Reasonable(value: real) {
    0.0 < value < MaxTradeValue
  }

  /** A trade an honest node votes for: its value is present and reasonable. */
  predicate Accepts(d: TradeData) {
    d.value.Some? && Reasonable(d.value.value)
  }

  /** The value the vote reads: a missing `value` entry counts as 0. */
  function ValueOf(d: TradeData): (v: real)
    ensures d.value.Some? ==> v == d.value.value
    ensures d.value.None? ==> !Reasonable(v)
  {
    d.value.GetOr(0.0)
  }

  /** The minimum number of votes before a decision: 2n//3 + 1 (floor division; Dafny's division by the
      positive constant 3 agrees with Python's). */
  function Quorum(totalNodes: int): int {
    (2 * totalNodes) / 3 + 1
  }

  function CountAccepts(votes: seq<Vote>): (k: nat)
    ensures k <= |votes|
  {
    if votes == [] then 0 else CountAccepts(votes[..|votes| - 1]) + (if votes[|votes| - 1].decision then 1 else 0)
  }

  /** The decision over one round's votes: none below the quorum, otherwise whether accepting votes
      strictly outnumber rejecting ones. */
  function Decide(votes: seq<Vote>, totalNodes: int): (r: Option<bool>)
    ensures r == None <==> |votes| < Quorum(totalNodes)
    ensures r.Some? ==> (r.value <==> CountAccepts(votes) > |votes| - CountAccepts(votes))
  {
    if |votes| < Quorum(totalNodes) then None
    else
      var acceptVotes := CountAccepts(votes);
      var rejectVotes := |votes| - acceptVotes;
      Some(acceptVotes > rejectVotes)
  }

  /** A node's decision on a round given the votes it has received: none for a round without votes,
      otherwise the decision over that round's votes. */
  function Consensus(receivedVotes: map<int, seq<Vote>>, totalNodes: int, roundNum: int): (r: Option<bool>)
    ensures roundNum !in receivedVotes ==> r == None
    ensures roundNum in receivedVotes ==> r == Decide(receivedVotes[roundNum], totalNodes)
  {
    if roundNum !in receivedVotes then None
    else Decide(receivedVotes[roundNum], totalNodes)
  }

  class Node {
    const nodeId: int
    const totalNodes: int
    var isHonest: bool
    var receivedVotes: map<int, seq<Vote>>
    var receivedProposals: map<int, Proposal>
    var decisions: map<int, bool>

    constructor(nodeId: int, totalNodes: int)
      ensures this.nodeId == nodeId && this.totalNodes == totalNodes
      ensures isHonest && receivedVotes == map[] && receivedProposals == map[] && decisions == map[]
    {
      this.nodeId := nodeId;
      this.totalNodes := totalNodes;
      isHonest := true;
      receivedVotes := map[];
      receivedProposals := map[];
      decisions := map[];
    }

    function CreateProposal(tradeData: TradeData, roundNum: int): (p: Proposal)
      ensures p.proposerId == nodeId && p.tradeData == tradeData && p.roundNumber == roundNum
    {
      Proposal(nodeId, tradeData, roundNum)
    }

    /** This node's vote: an acceptance exactly when the proposed value is reasonable. */
    function VoteOnProposal(proposal: Proposal): (v: Vote)
      ensures v.voterId == nodeId && v.roundNumber == proposal.roundNumber
      ensures v.decision <==> Accepts(proposal.tradeData)
    {
      var tradeValue := ValueOf(proposal.tradeData);
      Vote(nodeId, tradeValue > 0.0 && tradeValue < MaxTradeValue, proposal.roundNumber)
    }

    /** The votes received for a round, empty when none were. */
    function VotesFor(roundNum: int): seq<Vote>
      reads this
    {
      if roundNum in receivedVotes then receivedVotes[roundNum] else []
    }

    method ReceiveVote(vote: Vote)
      modifies this
      ensures receivedVotes == old(receivedVotes)[vote.roundNumber := old(VotesFor(vote.roundNumber)) + [vote]]
      ensures isHonest == old(isHonest) && receivedProposals == old(receivedProposals) && decisions == old(decisions)
    {
      var roundNum := vote.roundNumber;
      if roundNum !in receivedVotes {
        receivedVotes := receivedVotes[roundNum := []];
      }
      receivedVotes := receivedVotes[roundNum := receivedVotes[roundNum] + [vote]];
    }

    /** This node's decision on a round, from the votes it has received. */
    function CheckConsensus(roundNum: int): (r: Option<bool>)
      reads this
      ensures r == Consensus(receivedVotes, totalNodes, roundNum)
    {
      Consensus(receivedVotes, totalNodes, roundNum)
    }
  }

  /** A split vote rejects: with as many accepting as rejecting votes the decision, if any, is false. */
  lemma TieRejects(votes: seq<Vote>, totalNodes: int)
    requires 2 * CountAccepts(votes) == |votes|
    ensures Decide(votes, totalNodes) != Some(true)
  {
  }

  /** All n of n nodes voting: the quorum is met for every n >= 1. */
  lemma QuorumReachable(n: int)
    requires n >= 1
    ensures n >= Quorum(n)
  {
  }

  /** Votes that all agree are counted as all accepting or none. */
  lemma {:induction false} CountUnanimous(votes: seq<Vote>, d: bool)
    requires forall i :: 0 <= i < |votes| ==> votes[i].decision == d
    ensures CountAccepts(votes) == if d then |votes| else 0
  {
    if votes != [] {
      CountUnanimous(votes[..|votes| - 1], d);
    }
  }

  /** When every one of n >= 1 nodes has voted the same way, the decision is that vote. */
  lemma UnanimousDecision(votes: seq<Vote>, totalNodes: int, d: bool)
    requires totalNodes >= 1 && |votes| == totalNodes
    requires forall i :: 0 <= i < |votes| ==> votes[i].decision == d
    ensures Decide(votes, totalNodes) == Some(d)
  {
    QuorumReachable(totalNodes);
    CountUnanimous(votes, d);
  }
}
