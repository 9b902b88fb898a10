/** The order book that sends large trades to the trade-validation vote before executing them
    (market_sim/market/exchange/consensus_order_book.py). Buy and sell orders are kept in two lists,
    best price first; each added order makes at most one match attempt between the two heads. */
module ConsensusBook {
  import opened Wrappers
  import opened ConsensusNode
  import opened Broadcast

  /** An order of the book. The side is the caller's string: "buy" is a buy, anything else a sell. */
  datatype Order = Order(orderId: string, side: string, quantity: int, price: real, traderId: string)

  /** A trade; `number` is k of the trade id "T_k". */
  datatype Trade = Trade(number: nat, quantity: int, price: real, buyerId: string, sellerId: string,
                         consensusValidated: bool)

  /** The lists of the book, as values. */
  datatype Lists = Lists(buys: seq<Order>, sells: seq<Order>, trades: seq<Trade>)

  /** The book's state view. */
  datatype BookState = BookState(symbol: string, bids: seq<(real, int)>, asks: seq<(real, int)>,
                                 lastTrades: seq<Trade>)

  /** The threshold a book uses when none is given. */
  const DefaultThreshold: real := 100000.0

  /** The number of consensus nodes of a book. */
  const BookNodes: nat := 4

  predicate IsBuy(o: Order) {
    o.side == "buy"
  }

  /** `a` stays ahead of `o`: its price is as good or better (higher for buys, lower for sells). */
  predicate Ahead(a: Order, o: Order, buy: bool) {
    if buy then a.price >= o.price else a.price <= o.price
  }

  /** Buys run from the highest price down, sells from the lowest up. */
  ghost predicate Sorted(orders: seq<Order>, buy: bool) {
    forall i, j :: 0 <= i < j < |orders| ==> Ahead(orders[i], orders[j], buy)
  }

  /** The number of leading orders that stay ahead of `o`. */
  function InsertPos(orders: seq<Order>, o: Order, buy: bool): (k: nat)
    ensures k <= |orders|
    ensures forall i :: 0 <= i < k ==> Ahead(orders[i], o, buy)
    ensures k < |orders| ==> !Ahead(orders[k], o, buy)
  {
    if orders == [] || !Ahead(orders[0], o, buy) then 0 else 1 + InsertPos(orders[1..], o, buy)
  }

  /** The list after appending `o` and sorting stably by price: `o` goes after every order whose price is
      as good. */
  function Insert(orders: seq<Order>, o: Order, buy: bool): (r: seq<Order>)
    ensures |r| == |orders| + 1
  {
    var k := InsertPos(orders, o, buy);
    orders[..k] + [o] + orders[k..]
  }

  lemma InsertAt(orders: seq<Order>, o: Order, buy: bool, i: int)
    requires 0 <= i <= |orders|
    ensures var k := InsertPos(orders, o, buy);
            Insert(orders, o, buy)[i] == if i < k then orders[i] else if i == k then o else orders[i - 1]
  {
  }

  /** In a sorted list every order from the insertion point on is strictly behind `o`. */
  lemma BehindFrom(orders: seq<Order>, o: Order, buy: bool)
    requires Sorted(orders, buy)
    ensures forall i :: InsertPos(orders, o, buy) <= i < |orders| ==> !Ahead(orders[i], o, buy)
  {
    var k := InsertPos(orders, o, buy);
    forall i | k <= i < |orders| ensures !Ahead(orders[i], o, buy) {
      assert i > k ==> Ahead(orders[k], orders[i], buy);
    }
  }

  lemma InsertSorted(orders: seq<Order>, o: Order, buy: bool)
    requires Sorted(orders, buy)
    ensures Sorted(Insert(orders, o, buy), buy)
  {
    var r := Insert(orders, o, buy);
    var k := InsertPos(orders, o, buy);
    BehindFrom(orders, o, buy);
    forall i, j | 0 <= i < j < |r| ensures Ahead(r[i], r[j], buy) {
      InsertAt(orders, o, buy, i);
      InsertAt(orders, o, buy, j);
    }
  }

  lemma InsertContents(orders: seq<Order>, o: Order, buy: bool)
    ensures var r := Insert(orders, o, buy);
            var k := InsertPos(orders, o, buy);
            && multiset(r) == multiset(orders) + multiset{o}
            && r[k] == o && r[..k] + r[k + 1..] == orders
  {
    var r := Insert(orders, o, buy);
    var k := InsertPos(orders, o, buy);
    assert r[..k] == orders[..k] && r[k + 1..] == orders[k..];
    assert multiset(orders) == multiset(orders[..k]) + multiset(orders[k..]) by {
      assert orders == orders[..k] + orders[k..];
    }
  }

  /** On a sorted list, appending and sorting stably keeps the list sorted, adds exactly `o`, keeps the
      other orders in their order, and puts `o` after every order of as good a price and before every
      order of a worse one: what a stable sort by price yields. */
  lemma InsertIsStableSort(orders: seq<Order>, o: Order, buy: bool)
    requires Sorted(orders, buy)
    ensures var r := Insert(orders, o, buy);
            var k := InsertPos(orders, o, buy);
            && Sorted(r, buy)
            && multiset(r) == multiset(orders) + multiset{o}
            && r[k] == o && r[..k] + r[k + 1..] == orders
            && (forall i :: 0 <= i < k ==> Ahead(orders[i], o, buy))
            && (forall i :: k <= i < |orders| ==> !Ahead(orders[i], o, buy))
  {
    InsertSorted(orders, o, buy);
    InsertContents(orders, o, buy);
    BehindFrom(orders, o, buy);
  }

  /** The lists after adding `o` to its side. */
  function Placed(l: Lists, o: Order): Lists {
    if IsBuy(o) then l.(buys := Insert(l.buys, o, true)) else l.(sells := Insert(l.sells, o, false))
  }

  /** Both lists sorted. */
  ghost predicate SortedLists(l: Lists) {
    Sorted(l.buys, true) && Sorted(l.sells, false)
  }

  /** The heads cross: the best buy price reaches the best sell price. */
  predicate Crossing(l: Lists) {
    l.buys != [] && l.sells != [] && l.buys[0].price >= l.sells[0].price
  }

  /** The trade the crossing heads would make: at the sell price, for the smaller quantity, numbered one
      past the trades executed so far. */
  function Candidate(l: Lists): (t: Trade)
    requires Crossing(l)
    ensures t.price == l.sells[0].price && t.price <= l.buys[0].price
    ensures t.quantity == MinInt(l.buys[0].quantity, l.sells[0].quantity)
    ensures t.number == |l.trades| + 1 && !t.consensusValidated
  {
    Trade(|l.trades| + 1, MinInt(l.buys[0].quantity, l.sells[0].quantity), l.sells[0].price,
          l.buys[0].traderId, l.sells[0].traderId, false)
  }

  /** The trade's value, price times quantity. */
  function Value(t: Trade): real {
    t.price * t.quantity as real
  }

  /** A trade whose value reaches the threshold goes to the vote. */
  predicate NeedsConsensus(t: Trade, threshold: real) {
    Value(t) >= threshold
  }

  /** The vote's view of a trade: its value. */
  function VoteData(t: Trade): TradeData {
    TradeData(Some(Value(t)))
  }

  /** A list after its head is lowered by `q`; a head that reaches 0 leaves the list. */
  function Reduced(orders: seq<Order>, q: int): (r: seq<Order>)
    requires orders != []
    ensures orders[0].quantity == q ==> r == orders[1..]
    ensures orders[0].quantity != q ==> r == [orders[0].(quantity := orders[0].quantity - q)] + orders[1..]
  {
    var head := orders[0].(quantity := orders[0].quantity - q);
    if head.quantity == 0 then orders[1..] else [head] + orders[1..]
  }

  /** The lists after executing `t` between the two heads. */
  function Executed(l: Lists, t: Trade): Lists
    requires l.buys != [] && l.sells != []
  {
    Lists(Reduced(l.buys, t.quantity), Reduced(l.sells, t.quantity), l.trades + [t])
  }

  /** What one match attempt on `l` leaves, given `verdict`, the vote's result when it is asked. */
  ghost predicate MatchOutcome(l: Lists, l': Lists, matched: bool, threshold: real, verdict: Option<bool>) {
    if !Crossing(l) then !matched && l' == l
    else
      var t := Candidate(l);
      if !NeedsConsensus(t, threshold) then matched && l' == Executed(l, t)
      else
        && (matched <==> verdict == Some(true))
        && l' == if matched then Executed(l, t.(consensusValidated := true)) else l
  }

  /** Lowering a head and dropping it at 0 keeps a list sorted. */
  lemma ReducedSorted(orders: seq<Order>, q: int, buy: bool)
    requires orders != [] && Sorted(orders, buy)
    ensures Sorted(Reduced(orders, q), buy)
  {
    var r := Reduced(orders, q);
    if orders[0].quantity != q {
      forall i, j | 0 <= i < j < |r|
        ensures Ahead(r[i], r[j], buy)
      {
        assert r[i].price == orders[i].price && r[j].price == orders[j].price;
      }
    } else {
      forall i, j | 0 <= i < j < |r|
        ensures Ahead(r[i], r[j], buy)
      {
        assert r[i] == orders[i + 1] && r[j] == orders[j + 1];
      }
    }
  }

  /** One match attempt records at most one trade, keeps the earlier trades, keeps both lists sorted and,
      when it trades, trades at the best sell price for the smaller head quantity, the heads having crossed;
      without a trade the lists are as they were. */
  lemma {:induction false} MatchOutcomeFacts(l: Lists, l': Lists, matched: bool, threshold: real, verdict: Option<bool>)
    requires SortedLists(l) && MatchOutcome(l, l', matched, threshold, verdict)
    ensures SortedLists(l')
    ensures |l'.trades| == |l.trades| + (if matched then 1 else 0) && l'.trades[..|l.trades|] == l.trades
    ensures !matched ==> l' == l
    ensures matched ==> Crossing(l) && var t := l'.trades[|l.trades|];
              && t.price == l.sells[0].price && t.price <= l.buys[0].price
              && t.quantity == MinInt(l.buys[0].quantity, l.sells[0].quantity)
              && t.number == |l.trades| + 1
              && (t.consensusValidated <==> NeedsConsensus(t, threshold))
  {
    if matched {
      ReducedSorted(l.buys, Candidate(l).quantity, true);
      ReducedSorted(l.sells, Candidate(l).quantity, false);
      assert (l.trades + [l'.trades[|l.trades|]])[..|l.trades|] == l.trades;
    }
  }

  /** When both head quantities are positive a trade uses up at least one head. */
  lemma TradeEmptiesAHead(l: Lists, t: Trade)
    requires Crossing(l) && t == Candidate(l) && l.buys[0].quantity > 0 && l.sells[0].quantity > 0
    ensures var l' := Executed(l, t); |l'.buys| + |l'.sells| < |l.buys| + |l.sells|
  {
  }

  /** With honest nodes, a trade with positive value at or above the threshold is validated exactly when
      its value is below the vote's bound of 1,000,000. */
  lemma LargeTradeVerdict(t: Trade, threshold: real)
    requires threshold > 0.0 && NeedsConsensus(t, threshold)
    ensures Accepts(VoteData(t)) <==> Value(t) < MaxTradeValue
  {
  }

  function Levels(orders: seq<Order>): (r: seq<(real, int)>)
    ensures |r| == |orders| && forall i :: 0 <= i < |orders| ==> r[i] == (orders[i].price, orders[i].quantity)
  {
    if orders == [] then [] else [(orders[0].price, orders[0].quantity)] + Levels(orders[1..])
  }

  class ConsensusOrderBook {
    const symbol: string
    const consensusThreshold: real
    const consensusNodes: seq<Node>
    const consensusSystem: ByzantineBroadcast
    var buyOrders: seq<Order>
    var sellOrders: seq<Order>
    var executedTrades: seq<Trade>

    function Current(): Lists
      reads this
    {
      Lists(buyOrders, sellOrders, executedTrades)
    }

    /** The four nodes of the vote, each counting four nodes, behind the broadcast; node 0 has no votes
        for rounds beyond the current one. */
    ghost predicate VoteReady()
      reads consensusSystem, consensusNodes
    {
      && consensusSystem.Valid() && consensusSystem.nodes == consensusNodes && |consensusNodes| == BookNodes
      && consensusNodes[0].totalNodes == BookNodes
      && (forall r :: r in consensusNodes[0].receivedVotes ==> r <= consensusSystem.currentRound)
    }

    /** The vote is ready and both lists are sorted. */
    ghost predicate Valid()
      reads this, consensusSystem, consensusNodes
    {
      VoteReady() && SortedLists(Current())
    }

    /** Four fresh honest nodes with ids 0 to 3, each counting four nodes and holding no votes yet. */
    static method NewNodes() returns (nodes: seq<Node>)
      ensures |nodes| == BookNodes && (forall i, j :: 0 <= i < j < |nodes| ==> nodes[i] != nodes[j])
      ensures forall i :: 0 <= i < |nodes| ==> fresh(nodes[i])
      ensures AllHonest(States(nodes)) && nodes[0].totalNodes == BookNodes && nodes[0].receivedVotes == map[]
    {
      var n0 := new Node(0, 4);
      var n1 := new Node(1, 4);
      var n2 := new Node(2, 4);
      var n3 := new Node(3, 4);
      nodes := [n0, n1, n2, n3];
    }

    constructor(symbol: string, consensusThreshold: real)
      ensures Valid() && this.symbol == symbol && this.consensusThreshold == consensusThreshold
      ensures buyOrders == [] && sellOrders == [] && executedTrades == []
      ensures AllHonest(States(consensusNodes)) && fresh(consensusSystem)
    {
      this.symbol := symbol;
      this.consensusThreshold := consensusThreshold;
      var nodes := NewNodes();
      consensusNodes := nodes;
      consensusSystem := new ByzantineBroadcast(nodes);
      buyOrders := [];
      sellOrders := [];
      executedTrades := [];
    }

    /** Adds the order to its side and makes one match attempt; the result says whether a trade was made.
        A vote that is asked is asked in the next round, and with honest nodes decides by the trade's value. */
    method AddOrder(order: Order) returns (matched: bool)
      requires Valid()
      modifies this, consensusSystem, consensusNodes
      ensures Valid()
      ensures MatchOutcome(Placed(old(Current()), order), Current(), matched, consensusThreshold,
                           consensusSystem.GetConsensusResult(consensusSystem.currentRound))
      ensures var l := Placed(old(Current()), order);
              consensusSystem.currentRound ==
                old(consensusSystem.currentRound) +
                (if Crossing(l) && NeedsConsensus(Candidate(l), consensusThreshold) then 1 else 0)
      ensures var l := Placed(old(Current()), order);
              old(AllHonest(States(consensusNodes))) && Crossing(l) && NeedsConsensus(Candidate(l), consensusThreshold) ==>
                (matched <==> Accepts(VoteData(Candidate(l))))
    {
      InsertIsStableSort(if IsBuy(order) then buyOrders else sellOrders, order, IsBuy(order));
      if order.side == "buy" {
        buyOrders := Insert(buyOrders, order, true);
      } else {
        sellOrders := Insert(sellOrders, order, false);
      }
      matched := TryMatchOrders();
    }

    /** One match attempt between the heads. */
    method TryMatchOrders() returns (matched: bool)
      requires Valid()
      modifies this, consensusSystem, consensusNodes
      ensures Valid()
      ensures MatchOutcome(old(Current()), Current(), matched, consensusThreshold,
                           consensusSystem.GetConsensusResult(consensusSystem.currentRound))
      ensures consensusSystem.currentRound ==
                old(consensusSystem.currentRound) +
                (if Crossing(old(Current())) && NeedsConsensus(Candidate(old(Current())), consensusThreshold) then 1 else 0)
      ensures old(AllHonest(States(consensusNodes))) && Crossing(old(Current())) &&
              NeedsConsensus(Candidate(old(Current())), consensusThreshold) ==>
                (matched <==> Accepts(VoteData(Candidate(old(Current())))))
    {
      if buyOrders == [] || sellOrders == [] {
        return false;
      }
      var buyOrder := buyOrders[0];
      var sellOrder := sellOrders[0];

      if buyOrder.price >= sellOrder.price {
        var tradePrice := sellOrder.price;
        var tradeQuantity := MinInt(buyOrder.quantity, sellOrder.quantity);
        var tradeValue := tradePrice * tradeQuantity as real;
        var potentialTrade := Trade(|executedTrades| + 1, tradeQuantity, tradePrice,
                                    buyOrder.traderId, sellOrder.traderId, false);
        assert potentialTrade == Candidate(Current());
        if tradeValue >= consensusThreshold {
          matched := ConsensusValidateTrade(potentialTrade);
        } else {
          ExecuteTrade(potentialTrade);
          matched := true;
        }
        return;
      }
      return false;
    }

    /** Puts the trade to the vote, proposed by node 0, and executes it, marked as validated, only when the
        round's result is an acceptance; an undecided round counts as a rejection. */
    method ConsensusValidateTrade(trade: Trade) returns (accepted: bool)
      requires Valid() && buyOrders != [] && sellOrders != []
      modifies this, consensusSystem, consensusNodes
      ensures Valid()
      ensures consensusSystem.currentRound == old(consensusSystem.currentRound) + 1
      ensures accepted <==> consensusSystem.GetConsensusResult(consensusSystem.currentRound) == Some(true)
      ensures Current() == if accepted then Executed(old(Current()), trade.(consensusValidated := true)) else old(Current())
      ensures old(AllHonest(States(consensusNodes))) ==> (accepted <==> Accepts(VoteData(trade)))
    {
      ghost var before := States(consensusNodes);
      var consensusResult := AskVote(VoteData(trade), before);
      if consensusResult == Some(true) {
        ExecuteTrade(trade.(consensusValidated := true));
        accepted := true;
      } else {
        accepted := false;
      }
    }

    /** Runs one round of the vote on `data`, proposed by node 0, and returns the round's result; with honest
        nodes the result is whether the data is acceptable. */
    method AskVote(data: TradeData, ghost before: seq<NodeState>) returns (result: Option<bool>)
      requires VoteReady() && before == States(consensusNodes)
      modifies consensusSystem, consensusNodes
      ensures VoteReady()
      ensures consensusSystem.currentRound == old(consensusSystem.currentRound) + 1
      ensures result == consensusSystem.GetConsensusResult(consensusSystem.currentRound)
      ensures AllHonest(before) ==> result == Some(Accepts(data))
    {
      ghost var votesBefore := consensusNodes[0].receivedVotes;
      var round, sent := consensusSystem.ProposeTrade(0, data);
      var roundNum := round.value;
      result := consensusSystem.GetConsensusResult(roundNum);
      ghost var after := States(consensusNodes);
      Recorded(before, after, Ids(consensusNodes), sent, votesBefore, roundNum - 1);
      assert after[0] == StateOf(consensusNodes[0]);
    }

    /** Lowers both heads by the trade quantity, drops a head at 0 and records the trade. */
    method ExecuteTrade(trade: Trade)
      requires buyOrders != [] && sellOrders != []
      modifies this
      ensures Current() == Executed(old(Current()), trade)
    {
      var buyOrder := buyOrders[0];
      var sellOrder := sellOrders[0];

      buyOrder := buyOrder.(quantity := buyOrder.quantity - trade.quantity);
      sellOrder := sellOrder.(quantity := sellOrder.quantity - trade.quantity);
      buyOrders := [buyOrder] + buyOrders[1..];
      sellOrders := [sellOrder] + sellOrders[1..];

      if buyOrder.quantity == 0 {
        buyOrders := buyOrders[1..];
      }
      if sellOrder.quantity == 0 {
        sellOrders := sellOrders[1..];
      }

      executedTrades := executedTrades + [trade];
    }

    /** The first five bids and asks, as (price, quantity), and the last ten trades. */
    function GetOrderBookState(): (s: BookState)
      reads this
      ensures s.symbol == symbol
      ensures |s.bids| == MinInt(|buyOrders|, 5) && |s.asks| == MinInt(|sellOrders|, 5)
      ensures forall i :: 0 <= i < |s.bids| ==> s.bids[i] == (buyOrders[i].price, buyOrders[i].quantity)
      ensures forall i :: 0 <= i < |s.asks| ==> s.asks[i] == (sellOrders[i].price, sellOrders[i].quantity)
      ensures |s.lastTrades| == MinInt(|executedTrades|, 10)
      ensures s.lastTrades == executedTrades[|executedTrades| - |s.lastTrades|..]
    {
      BookState(symbol, Levels(PyTake(buyOrders, 5)), Levels(PyTake(sellOrders, 5)), PyLast(executedTrades, 10))
    }
  }

  /** A round of the vote run from `before` in round `round + 1` leaves node 0 with no votes beyond that
      round, and, when every node was honest and node 0 had no votes beyond `round`, with a decision that
      is exactly whether the trade is acceptable. */
  lemma Recorded(before: seq<NodeState>, after: seq<NodeState>, ids: seq<int>, p: Proposal,
                 votesBefore: map<int, seq<Vote>>, round: int)
    requires |ids| == |before| == BookNodes && before[0].receivedVotes == votesBefore
    requires p.roundNumber == round + 1 && after == AfterRound(before, p, HonestVotes(ids, before, p))
    requires forall r :: r in votesBefore ==> r <= round
    ensures forall r :: r in after[0].receivedVotes ==> r <= round + 1
    ensures AllHonest(before) ==> Consensus(after[0].receivedVotes, BookNodes, round + 1) == Some(Accepts(p.tradeData))
  {
    RoundStep(before, after, ids, p);
    if AllHonest(before) {
      HonestRoundDecides(ids, before, p, BookNodes);
    }
  }
}
