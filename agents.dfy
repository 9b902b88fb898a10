/** The books every trading agent keeps (market_sim/market/agents/base_agent.py): a cash balance, positions
    created on first use, the agent's open orders by id, and the trades it took part in. */
module Agents {
  import opened Wrappers
  import opened Models

  /** An agent's books as a value. `symbols` and `orderIds` are the insertion orders of the position and
      order dictionaries, which the source iterates in. */
  datatype Ledger = Ledger(agentId: string, balance: real, symbols: seq<string>, positions: map<string, Position>,
                           orderIds: seq<nat>, orders: map<nat, Order>, trades: seq<Trade>)

  /** The insertion orders list each key of their dictionary exactly once. */
  ghost predicate GoodLedger(l: Ledger) {
    && Distinct(l.symbols) && (forall s :: s in l.positions <==> s in l.symbols)
    && Distinct(l.orderIds) && (forall id :: id in l.orders <==> id in l.orderIds)
  }

  lemma AppendDistinct<T>(s: seq<T>, x: T)
    requires Distinct(s) && x !in s
    ensures Distinct(s + [x])
  {
    var t := s + [x];
    forall i, j | 0 <= i < j < |t| ensures t[i] != t[j] {
      if j == |s| {
        assert t[i] == s[i];
      } else {
        assert t[i] == s[i] && t[j] == s[j];
      }
    }
  }

  /** The ledger once `symbol` has a position: a zero position is created for a symbol seen the first time. */
  function WithPosition(l: Ledger, symbol: string): Ledger {
    if symbol in l.positions then l
    else l.(symbols := l.symbols + [symbol], positions := l.positions[symbol := CreatePosition(l.agentId, symbol)])
  }

  /** The position `get_position` hands out for `symbol`. */
  function PositionOf(l: Ledger, symbol: string): Position {
    if symbol in l.positions then l.positions[symbol] else CreatePosition(l.agentId, symbol)
  }

  /** Looking a position up creates it at most once: afterwards the same position is found, and nothing but
      the positions changes. */
  lemma WithPositionFacts(l: Ledger, symbol: string)
    requires GoodLedger(l)
    ensures var r := WithPosition(l, symbol);
            && GoodLedger(r) && symbol in r.positions && r.positions[symbol] == PositionOf(l, symbol)
            && WithPosition(r, symbol) == r && PositionOf(r, symbol) == PositionOf(l, symbol)
            && r.balance == l.balance && r.orderIds == l.orderIds && r.orders == l.orders && r.trades == l.trades
            && (forall s :: s in l.positions ==> s in r.positions && r.positions[s] == l.positions[s])
  {
    if symbol !in l.positions {
      AppendDistinct(l.symbols, symbol);
    }
  }

  /** A first position is all zeros. */
  lemma FirstPositionIsZero(l: Ledger, symbol: string)
    requires symbol !in l.positions
    ensures var p := PositionOf(l, symbol);
            p.quantity == 0.0 && p.averageEntryPrice == 0.0 && p.realizedPnl == 0.0 && p.unrealizedPnl == 0.0
  {
  }

  /** The ledger after `update_position`: the position moves as `Position.update` says, and the buyer pays,
      the seller receives, price times quantity. A trade without a price raises a TypeError once the position
      exists; an update that raises leaves the balance as it was. */
  function Traded(l: Ledger, trade: Trade, isBuyer: bool): Outcome<Ledger> {
    var l1 := WithPosition(l, trade.symbol);
    match trade.price
    case None => Raised(TypeError, l1)
    case Some(price) =>
      match UpdatedPosition(l1.positions[trade.symbol], trade.quantity, price, if isBuyer then Buy else Sell)
      case Raised(e, p) => Raised(e, l1.(positions := l1.positions[trade.symbol := p]))
      case Done(p) =>
        var value := price * trade.quantity;
        Done(l1.(positions := l1.positions[trade.symbol := p],
                 balance := if isBuyer then l1.balance - value else l1.balance + value))
  }

  /** A position update keeps the ledger well formed and touches only the balance and that one position. */
  lemma TradedFacts(l: Ledger, trade: Trade, isBuyer: bool)
    requires GoodLedger(l)
    ensures var r := Traded(l, trade, isBuyer).Final();
            && GoodLedger(r) && r.symbols == WithPosition(l, trade.symbol).symbols
            && r.orderIds == l.orderIds && r.orders == l.orders && r.trades == l.trades && r.agentId == l.agentId
            && (forall s :: s in l.positions && s != trade.symbol ==> s in r.positions && r.positions[s] == l.positions[s])
  {
    WithPositionFacts(l, trade.symbol);
  }

  /** The cash of one trade moves from the buyer to the seller: the amount the buyer pays is the amount the
      seller receives. */
  lemma TradeMovesCash(buyer: Ledger, seller: Ledger, trade: Trade)
    requires trade.price.Some?
    requires Traded(buyer, trade, true).Done? && Traded(seller, trade, false).Done?
    ensures var value := trade.price.value * trade.quantity;
            && Traded(buyer, trade, true).value.balance == buyer.balance - value
            && Traded(seller, trade, false).value.balance == seller.balance + value
            && Traded(buyer, trade, true).value.balance + Traded(seller, trade, false).value.balance
               == buyer.balance + seller.balance
  {
  }

  /** An update that raises leaves the cash where it was. */
  lemma RaisedKeepsCash(l: Ledger, trade: Trade, isBuyer: bool)
    requires Traded(l, trade, isBuyer).Raised?
    ensures Traded(l, trade, isBuyer).partial.balance == l.balance
  {
  }

  /** The ids of `ids` other than `id`, in their order. */
  function Dropped(ids: seq<nat>, id: nat): seq<nat> {
    if ids == [] then []
    else (if ids[0] == id then [] else [ids[0]]) + Dropped(ids[1..], id)
  }

  lemma {:induction false} DroppedContents(ids: seq<nat>, id: nat)
    ensures forall x :: x in Dropped(ids, id) <==> x in ids && x != id
    ensures Distinct(ids) ==> Distinct(Dropped(ids, id))
  {
    if ids != [] {
      DroppedContents(ids[1..], id);
      assert ids == [ids[0]] + ids[1..];
      if Distinct(ids) {
        var rest := Dropped(ids[1..], id);
        assert Distinct(ids[1..]) by {
          forall i, j | 0 <= i < j < |ids[1..]| ensures ids[1..][i] != ids[1..][j] {
            assert ids[1..][i] == ids[i + 1] && ids[1..][j] == ids[j + 1];
          }
        }
        assert ids[0] !in ids[1..] by {
          forall i | 0 <= i < |ids[1..]| ensures ids[1..][i] != ids[0] {
            assert ids[1..][i] == ids[i + 1];
          }
        }
        var head := if ids[0] == id then [] else [ids[0]];
        forall i, j | 0 <= i < j < |head + rest| ensures (head + rest)[i] != (head + rest)[j] {
          if i < |head| {
            assert (head + rest)[j] == rest[j - |head|];
          } else {
            assert (head + rest)[i] == rest[i - |head|] && (head + rest)[j] == rest[j - |head|];
          }
        }
      }
    }
  }

  /** The ledger after `on_order_fill`: the trade is recorded, the position updated on the side the order took
      in the trade, and a filled order forgotten; forgetting an order the ledger does not hold raises a
      KeyError once the position has moved. */
  function AfterFill(l: Ledger, order: Order, trade: Trade): Outcome<Ledger> {
    var l1 := l.(trades := l.trades + [trade]);
    match Traded(l1, trade, trade.buyerOrderId == order.id)
    case Raised(e, p) => Raised(e, p)
    case Done(l2) => Forgotten(l2, order)
  }

  /** The ledger once a filled `order` is dropped from the agent's orders; dropping an unknown one raises. */
  function Forgotten(l: Ledger, order: Order): Outcome<Ledger> {
    if order.status != Filled then Done(l)
    else if order.id !in l.orders then Raised(KeyError, l)
    else Done(l.(orders := l.orders - {order.id}, orderIds := Dropped(l.orderIds, order.id)))
  }

  /** A fill always records the trade; a fill that completes leaves the order unknown, and any other fill
      leaves the order book of the agent as it was. */
  lemma AfterFillFacts(l: Ledger, order: Order, trade: Trade)
    requires GoodLedger(l)
    ensures var r := AfterFill(l, order, trade);
            && GoodLedger(r.Final()) && r.Final().trades == l.trades + [trade]
            && (r.Done? && order.status == Filled ==>
                  && order.id !in r.value.orders
                  && forall id :: id in r.value.orders <==> id in l.orders && id != order.id)
            && (order.status != Filled ==> r.Final().orders == l.orders && r.Final().orderIds == l.orderIds)
            && (r.Raised? && r.error == KeyError ==> order.status == Filled && order.id !in l.orders)
  {
    var l1 := l.(trades := l.trades + [trade]);
    TradedFacts(l1, trade, trade.buyerOrderId == order.id);
    DroppedContents(Traded(l1, trade, trade.buyerOrderId == order.id).Final().orderIds, order.id);
  }

  /** The ledger with `order` recorded under its id; an id already in use keeps its place and gets the new
      order. */
  function Registered(l: Ledger, order: Order): Ledger {
    l.(orders := l.orders[order.id := order],
       orderIds := if order.id in l.orders then l.orderIds else l.orderIds + [order.id])
  }

  lemma RegisteredFacts(l: Ledger, order: Order)
    requires GoodLedger(l)
    ensures var r := Registered(l, order);
            && GoodLedger(r) && order.id in r.orders && r.orders[order.id] == order
            && (forall id :: id != order.id ==> (id in r.orders <==> id in l.orders))
            && (forall id :: id in l.orders && id != order.id ==> r.orders[id] == l.orders[id])
  {
    if order.id !in l.orders {
      AppendDistinct(l.orderIds, order.id);
    }
  }

  /** What the position in `symbol` adds to the portfolio value: quantity times price, when the quantity is not
      zero and a price is known. */
  function Worth(positions: map<string, Position>, prices: map<string, real>, symbol: string): real {
    if symbol in positions && positions[symbol].quantity != 0.0 && symbol in prices then
      positions[symbol].quantity * prices[symbol]
    else 0.0
  }

  /** The worth of the positions in `symbols`. */
  function Holdings(symbols: seq<string>, positions: map<string, Position>, prices: map<string, real>): real {
    if symbols == [] then 0.0
    else Holdings(symbols[..|symbols| - 1], positions, prices) + Worth(positions, prices, symbols[|symbols| - 1])
  }

  /** Without any price no position is worth anything. */
  lemma {:induction false} HoldingsWithoutPrices(symbols: seq<string>, positions: map<string, Position>)
    ensures Holdings(symbols, positions, map[]) == 0.0
    decreases |symbols|
  {
    if symbols != [] {
      HoldingsWithoutPrices(symbols[..|symbols| - 1], positions);
    }
  }

  /** Cash plus the worth of every position. */
  function PortfolioValue(l: Ledger, prices: map<string, real>): real {
    l.balance + Holdings(l.symbols, l.positions, prices)
  }

  /** A position at a known price is worth quantity times price, a zero one included. */
  lemma WorthAtPrice(positions: map<string, Position>, prices: map<string, real>, symbol: string, price: real)
    requires symbol in positions && symbol in prices && prices[symbol] == price
    ensures Worth(positions, prices, symbol) == positions[symbol].quantity * price
  {
  }

  /** The position of a symbol outside `symbols` does not count. */
  lemma {:induction false} HoldingsOutside(symbols: seq<string>, positions: map<string, Position>,
                                           prices: map<string, real>, symbol: string, p: Position)
    requires symbol !in symbols
    ensures Holdings(symbols, positions[symbol := p], prices) == Holdings(symbols, positions, prices)
  {
    if symbols != [] {
      var init := symbols[..|symbols| - 1];
      assert symbols == init + [symbols[|symbols| - 1]];
      HoldingsOutside(init, positions, prices, symbol, p);
    }
  }

  /** Replacing one position changes the holdings by the change in that position's worth. */
  lemma {:induction false} HoldingsChange(symbols: seq<string>, positions: map<string, Position>,
                                          prices: map<string, real>, symbol: string, p: Position)
    requires Distinct(symbols) && symbol in symbols
    ensures Holdings(symbols, positions[symbol := p], prices)
            == Holdings(symbols, positions, prices) - Worth(positions, prices, symbol)
               + Worth(positions[symbol := p], prices, symbol)
  {
    var n := |symbols|;
    var init := symbols[..n - 1];
    if symbols[n - 1] == symbol {
      assert symbol !in init by {
        forall i | 0 <= i < |init| ensures init[i] != symbol {
          assert init[i] == symbols[i];
        }
      }
      HoldingsOutside(init, positions, prices, symbol, p);
    } else {
      var i :| 0 <= i < n && symbols[i] == symbol;
      assert init[i] == symbol;
      assert Distinct(init) by {
        forall a, b | 0 <= a < b < |init| ensures init[a] != init[b] {
          assert init[a] == symbols[a] && init[b] == symbols[b];
        }
      }
      HoldingsChange(init, positions, prices, symbol, p);
    }
  }

  /** Creating a zero position for a new symbol does not change the portfolio value. */
  lemma WithPositionKeepsValue(l: Ledger, symbol: string, prices: map<string, real>)
    requires GoodLedger(l)
    ensures PortfolioValue(WithPosition(l, symbol), prices) == PortfolioValue(l, prices)
  {
    if symbol !in l.positions {
      var r := WithPosition(l, symbol);
      assert r.symbols[..|r.symbols| - 1] == l.symbols;
      HoldingsOutside(l.symbols, l.positions, prices, symbol, CreatePosition(l.agentId, symbol));
    }
  }

  /** What a position update that does not raise changes: that one position's quantity and the cash. */
  lemma TradedEffect(l: Ledger, trade: Trade, isBuyer: bool)
    requires trade.price.Some? && Traded(l, trade, isBuyer).Done?
    ensures var r, l1 := Traded(l, trade, isBuyer).value, WithPosition(l, trade.symbol);
            var q0, q := PositionOf(l, trade.symbol).quantity, trade.quantity;
            && trade.symbol in l1.positions && trade.symbol in r.positions && r.symbols == l1.symbols
            && r.positions == l1.positions[trade.symbol := r.positions[trade.symbol]]
            && r.positions[trade.symbol].quantity == (if !isBuyer then q0 - q else if q0 == 0.0 then q0 else q0 + q)
            && r.balance == if isBuyer then l.balance - trade.price.value * q else l.balance + trade.price.value * q
  {
    var l1 := WithPosition(l, trade.symbol);
    var p0 := l1.positions[trade.symbol];
    assert p0 == PositionOf(l, trade.symbol);
    var price := trade.price.value;
    var u := UpdatedPosition(p0, trade.quantity, price, if isBuyer then Buy else Sell);
    assert u.Done?;
    TradedDone(l, trade, isBuyer, price, p0, u.value, price * trade.quantity);
  }

  /** A trade whose position update succeeds moves the cash by `value`, the price times the quantity. */
  lemma TradedDone(l: Ledger, trade: Trade, isBuyer: bool, price: real, p0: Position, p: Position, value: real)
    requires trade.price == Some(price) && value == price * trade.quantity && p0 == PositionOf(l, trade.symbol)
    requires UpdatedPosition(p0, trade.quantity, price, if isBuyer then Buy else Sell) == Done(p)
    ensures var l1 := WithPosition(l, trade.symbol);
            Traded(l, trade, isBuyer)
            == Done(l1.(positions := l1.positions[trade.symbol := p],
                        balance := if isBuyer then l1.balance - value else l1.balance + value))
  {
    var l1 := WithPosition(l, trade.symbol);
    assert l1.positions[trade.symbol] == p0;
    assert UpdatedPosition(l1.positions[trade.symbol], trade.quantity, price, if isBuyer then Buy else Sell) == Done(p);
    assert Traded(l, trade, isBuyer).Done?;
    assert Traded(l, trade, isBuyer).value.positions == l1.positions[trade.symbol := p];
    assert Traded(l, trade, isBuyer).value.balance == if isBuyer then l1.balance - value else l1.balance + value;
  }

  /** A position update that does not raise changes the portfolio value by the change in cash and the
      change in that one position's worth. */
  lemma ValueAfterUpdate(l: Ledger, trade: Trade, isBuyer: bool, prices: map<string, real>)
    requires GoodLedger(l) && trade.price.Some? && Traded(l, trade, isBuyer).Done?
    ensures var r, l1 := Traded(l, trade, isBuyer).value, WithPosition(l, trade.symbol);
            PortfolioValue(r, prices) - r.balance
            == PortfolioValue(l, prices) - l.balance - Worth(l1.positions, prices, trade.symbol)
               + Worth(r.positions, prices, trade.symbol)
  {
    var l1, r := WithPosition(l, trade.symbol), Traded(l, trade, isBuyer).value;
    WithPositionFacts(l, trade.symbol);
    WithPositionKeepsValue(l, trade.symbol, prices);
    TradedEffect(l, trade, isBuyer);
    HoldingsChange(l1.symbols, l1.positions, prices, trade.symbol, r.positions[trade.symbol]);
  }

  /** At the price the trade was made at, the change in the position's worth is the cash paid for it (or
      minus the cash received), except for a buy into an empty position. */
  lemma WorthMatchesCash(l: Ledger, trade: Trade, isBuyer: bool, prices: map<string, real>)
    requires GoodLedger(l)
    requires trade.symbol in prices && trade.price == Some(prices[trade.symbol])
    requires Traded(l, trade, isBuyer).Done?
    requires !isBuyer || PositionOf(l, trade.symbol).quantity != 0.0
    ensures var r, l1 := Traded(l, trade, isBuyer).value, WithPosition(l, trade.symbol);
            Worth(r.positions, prices, trade.symbol) - Worth(l1.positions, prices, trade.symbol) == l.balance - r.balance
  {
    var l1, r := WithPosition(l, trade.symbol), Traded(l, trade, isBuyer).value;
    WithPositionFacts(l, trade.symbol);
    TradedEffect(l, trade, isBuyer);
    var price := trade.price.value;
    WorthAtPrice(l1.positions, prices, trade.symbol, price);
    WorthAtPrice(r.positions, prices, trade.symbol, price);
    TradeArithmetic(l.balance, r.balance, Worth(l1.positions, prices, trade.symbol), Worth(r.positions, prices, trade.symbol),
                    l1.positions[trade.symbol].quantity, r.positions[trade.symbol].quantity, trade.quantity,
                    price, isBuyer);
  }

  /** The arithmetic of a trade at a price: the change in worth offsets the cash paid or received. */
  lemma TradeArithmetic(b0: real, b1: real, w0: real, w1: real, q0: real, q1: real, q: real, price: real,
                        isBuyer: bool)
    requires w0 == q0 * price && w1 == q1 * price
    requires q1 == if isBuyer then q0 + q else q0 - q
    requires b1 == if isBuyer then b0 - price * q else b0 + price * q
    ensures w1 - w0 == b0 - b1
  {
    if isBuyer {
      assert q1 * price == q0 * price + q * price;
    } else {
      assert q1 * price == q0 * price - q * price;
    }
  }

  /** Trading at the price the portfolio is valued at only turns cash into stock or back: the value stays,
      except for a buy into an empty position (next lemma). */
  lemma TradeAtMarkKeepsValue(l: Ledger, trade: Trade, isBuyer: bool, prices: map<string, real>)
    requires GoodLedger(l)
    requires trade.symbol in prices && trade.price == Some(prices[trade.symbol])
    requires Traded(l, trade, isBuyer).Done?
    requires !isBuyer || PositionOf(l, trade.symbol).quantity != 0.0
    ensures PortfolioValue(Traded(l, trade, isBuyer).value, prices) == PortfolioValue(l, prices)
  {
    ValueAfterUpdate(l, trade, isBuyer, prices);
    WorthMatchesCash(l, trade, isBuyer, prices);
  }

  /** A buy into an empty position only records the price as the average, so the cash leaves and no stock
      arrives: the portfolio value drops by what was paid. */
  lemma FirstBuyLosesValue(l: Ledger, trade: Trade, prices: map<string, real>)
    requires GoodLedger(l)
    requires trade.symbol in prices && trade.price == Some(prices[trade.symbol])
    requires PositionOf(l, trade.symbol).quantity == 0.0
    ensures Traded(l, trade, true).Done?
    ensures PortfolioValue(Traded(l, trade, true).value, prices)
            == PortfolioValue(l, prices) - prices[trade.symbol] * trade.quantity
  {
    FirstBuyFacts(l, trade, prices);
    ValueAfterUpdate(l, trade, true, prices);
  }

  /** A buy into an empty position goes through, pays for the stock and leaves the position, worth nothing,
      as empty as it was. */
  lemma FirstBuyFacts(l: Ledger, trade: Trade, prices: map<string, real>)
    requires GoodLedger(l)
    requires trade.symbol in prices && trade.price == Some(prices[trade.symbol])
    requires PositionOf(l, trade.symbol).quantity == 0.0
    ensures Traded(l, trade, true).Done?
    ensures var r, l1 := Traded(l, trade, true).value, WithPosition(l, trade.symbol);
            && r.balance == l.balance - prices[trade.symbol] * trade.quantity
            && Worth(l1.positions, prices, trade.symbol) == 0.0 == Worth(r.positions, prices, trade.symbol)
  {
    WithPositionFacts(l, trade.symbol);
    assert Traded(l, trade, true).Done?;
    TradedEffect(l, trade, true);
  }

  /** One line of the portfolio summary. */
  datatype Holding = Holding(quantity: real, avgEntryPrice: real, currentPrice: real, marketValue: real,
                             unrealizedPnl: real, realizedPnl: real)

  /** The portfolio summary; `timestamp` is the clock reading it was taken at. */
  datatype Summary = Summary(timestamp: int, agentId: string, cashBalance: real, totalValue: real,
                             positions: map<string, Holding>, openOrders: nat, totalTrades: nat)

  /** The summary line of position `p` at `price`: its market value is quantity times price, and its
      unrealised profit is the price's excess over the average entry price, times the quantity. */
  function HoldingOf(p: Position, price: real): Holding {
    Holding(p.quantity, p.averageEntryPrice, price, p.quantity * price, (price - p.averageEntryPrice) * p.quantity,
            p.realizedPnl)
  }

  /** A position is listed when it is not zero and its symbol has a price that is not zero. */
  predicate Shown(positions: map<string, Position>, prices: map<string, real>, symbol: string) {
    symbol in positions && positions[symbol].quantity != 0.0 && symbol in prices && prices[symbol] != 0.0
  }

  /** The portfolio summary of ledger `l` at clock reading `now`: the cash, the total value at `prices`, one
      holding for every shown position, and the numbers of orders and trades. */
  function SummaryOf(l: Ledger, prices: map<string, real>, now: int): Summary {
    Summary(now, l.agentId, l.balance, PortfolioValue(l, prices),
            map symbol | symbol in l.positions && Shown(l.positions, prices, symbol) :: HoldingOf(l.positions[symbol], prices[symbol]),
            |l.orders|, |l.trades|)
  }

  /** The verdict of `validate_order`. A sell needs the position to cover it; a market buy needs a known,
      non-zero price, and a buy needs the balance to cover its estimated cost. A buy that is not a market order
      and has no price raises a TypeError. */
  function Validity(l: Ledger, order: Order, prices: map<string, real>): Result<bool> {
    if order.side == Sell then Ok(PositionOf(l, order.symbol).quantity >= order.quantity)
    else if order.orderType == Market then
      if order.symbol !in prices || prices[order.symbol] == 0.0 then Ok(false)
      else Ok(l.balance >= prices[order.symbol] * order.quantity)
    else if order.price.None? then Err(TypeError)
    else Ok(l.balance >= order.price.value * order.quantity)
  }

  /** The price a buy is costed at: the known price for a market order, its own price otherwise. */
  function EstimatedPrice(order: Order, prices: map<string, real>): real
    requires order.orderType == Market ==> order.symbol in prices
    requires order.orderType != Market ==> order.price.Some?
  {
    if order.orderType == Market then prices[order.symbol] else order.price.value
  }

  /** A buy that passed validation, filled for at most its quantity at no more than its estimated price,
      leaves the balance covering the payment. */
  lemma ValidatedBuyIsCovered(l: Ledger, order: Order, prices: map<string, real>, trade: Trade)
    requires order.side == Buy && Validity(l, order, prices) == Ok(true)
    requires trade.symbol == order.symbol && trade.price.Some?
    requires 0.0 <= trade.quantity <= order.quantity
    requires 0.0 <= trade.price.value <= EstimatedPrice(order, prices)
    requires Traded(l, trade, true).Done?
    ensures Traded(l, trade, true).value.balance >= 0.0
  {
    var e := EstimatedPrice(order, prices);
    assert l.balance >= e * order.quantity;
    TradedEffect(l, trade, true);
    CostCovered(l.balance, e, order.quantity, trade.price.value, trade.quantity);
  }

  /** The arithmetic of a covered buy: a cash balance covering price `e` for quantity `bigQ` covers any
      smaller price for any smaller quantity. */
  lemma CostCovered(b: real, e: real, bigQ: real, p: real, q: real)
    requires b >= e * bigQ && 0.0 <= p <= e && 0.0 <= q <= bigQ
    ensures b - p * q >= 0.0
  {
    assert p * q <= e * q;
    assert e * q <= e * bigQ;
  }

  /** A sell that passed validation and fills for at most its quantity cannot turn the position short. */
  lemma ValidatedSellIsCovered(l: Ledger, order: Order, prices: map<string, real>, trade: Trade)
    requires order.side == Sell && Validity(l, order, prices) == Ok(true)
    requires trade.symbol == order.symbol && trade.price.Some? && trade.quantity <= order.quantity
    ensures Traded(l, trade, false).Done?
    ensures Traded(l, trade, false).value.positions[trade.symbol].quantity >= 0.0
  {
    var l1 := WithPosition(l, trade.symbol);
    var q0 := l1.positions[trade.symbol].quantity;
    assert q0 == PositionOf(l, trade.symbol).quantity >= order.quantity;
    var u := UpdatedPosition(l1.positions[trade.symbol], trade.quantity, trade.price.value, Sell);
    assert u.Done? && u.value.quantity == q0 - trade.quantity;
  }

  /** Orders `cancel_all_orders` cancels: pending and partly filled ones. */
  predicate Open(o: Order) {
    o.status == Pending || o.status == Partial
  }

  /** The ids of `ids` held in `orders` whose orders are open (`open`) or not, in their order. */
  function Select(ids: seq<nat>, orders: map<nat, Order>, open: bool): seq<nat> {
    if ids == [] then []
    else
      var last := ids[|ids| - 1];
      Select(ids[..|ids| - 1], orders, open) + (if last in orders && Open(orders[last]) == open then [last] else [])
  }

  lemma {:induction false} SelectContents(ids: seq<nat>, orders: map<nat, Order>, open: bool)
    ensures forall id :: id in Select(ids, orders, open) <==> id in ids && id in orders && Open(orders[id]) == open
    ensures Distinct(ids) ==> Distinct(Select(ids, orders, open))
  {
    if ids != [] {
      var init := ids[..|ids| - 1];
      var last := ids[|ids| - 1];
      SelectContents(init, orders, open);
      assert ids == init + [last];
      if Distinct(ids) {
        assert Distinct(init) by {
          forall a, b | 0 <= a < b < |init| ensures init[a] != init[b] {
            assert init[a] == ids[a] && init[b] == ids[b];
          }
        }
        assert last !in init by {
          forall a | 0 <= a < |init| ensures init[a] != last {
            assert init[a] == ids[a];
          }
        }
        var s := Select(init, orders, open);
        if last in orders && Open(orders[last]) == open {
          AppendDistinct(s, last);
        }
      }
    }
  }

  lemma SelectStep(ids: seq<nat>, i: nat, orders: map<nat, Order>, open: bool)
    requires i < |ids|
    ensures Select(ids[..i + 1], orders, open)
            == Select(ids[..i], orders, open) + (if ids[i] in orders && Open(orders[ids[i]]) == open then [ids[i]] else [])
  {
    assert ids[..i + 1][..i] == ids[..i];
  }

  /** The orders that are not open. */
  function Closed(orders: map<nat, Order>): map<nat, Order> {
    map id | id in orders && !Open(orders[id]) :: orders[id]
  }

  /** The ledger without its open orders. */
  function WithoutOpenOrders(l: Ledger): Ledger {
    l.(orders := Closed(l.orders), orderIds := Select(l.orderIds, l.orders, false))
  }

  lemma {:induction false} SelectClosed(ids: seq<nat>, orders: map<nat, Order>)
    ensures Select(Select(ids, orders, false), Closed(orders), false) == Select(ids, orders, false)
  {
    if ids != [] {
      var init, last := ids[..|ids| - 1], ids[|ids| - 1];
      var s := Select(init, orders, false);
      SelectClosed(init, orders);
      if last in orders && !Open(orders[last]) {
        var t := s + [last];
        assert t[..|t| - 1] == s && t[|t| - 1] == last;
        assert last in Closed(orders) && Closed(orders)[last] == orders[last];
        assert Select(t, Closed(orders), false) == Select(s, Closed(orders), false) + [last];
      } else {
        assert Select(ids, orders, false) == s + [] == s;
      }
    }
  }

  /** Cancelling all open orders a second time changes nothing. */
  lemma CancelAllIdempotent(l: Ledger)
    ensures WithoutOpenOrders(WithoutOpenOrders(l)) == WithoutOpenOrders(l)
  {
    SelectClosed(l.orderIds, l.orders);
    assert Closed(Closed(l.orders)) == Closed(l.orders);
  }

  /** Cancelling every open order returns exactly the open ones, each once and in the order they were placed,
      and keeps every other order as it was. */
  lemma CancelAllFacts(l: Ledger)
    requires GoodLedger(l)
    ensures var cancelled := Select(l.orderIds, l.orders, true);
            var r := WithoutOpenOrders(l);
            && GoodLedger(r) && Distinct(cancelled)
            && (forall id :: id in cancelled <==> id in l.orders && Open(l.orders[id]))
            && (forall id :: id in r.orders ==> !Open(r.orders[id]))
            && (forall id :: id in l.orders && !Open(l.orders[id]) ==> id in r.orders && r.orders[id] == l.orders[id])
  {
    SelectContents(l.orderIds, l.orders, true);
    SelectContents(l.orderIds, l.orders, false);
  }

  /** What is left once the open orders among `l`'s are cancelled is exactly the ledger's other orders. */
  lemma CancelledRest(l: Ledger, cancelled: seq<nat>, remaining: map<nat, Order>)
    requires GoodLedger(l) && cancelled == Select(l.orderIds, l.orders, true)
    requires forall id :: id in remaining <==> id in l.orders && id !in cancelled
    requires forall id :: id in remaining ==> remaining[id] == l.orders[id]
    ensures remaining == WithoutOpenOrders(l).orders
  {
    SelectContents(l.orderIds, l.orders, true);
  }

  /** The loop of `cancel_all_orders` over the placed order ids: the open ones are cancelled and leave `orders`,
      the others are kept. */
  method SplitOpen(ids: seq<nat>, orders: map<nat, Order>) returns (cancelled: seq<nat>, kept: seq<nat>, remaining: map<nat, Order>)
    requires Distinct(ids) && forall id :: id in ids ==> id in orders
    ensures cancelled == Select(ids, orders, true) && kept == Select(ids, orders, false)
    ensures forall id :: id in remaining <==> id in orders && id !in cancelled
    ensures forall id :: id in remaining ==> remaining[id] == orders[id]
  {
    remaining := orders;
    cancelled := [];
    kept := [];
    var i := 0;
    while i < |ids|
      invariant 0 <= i <= |ids|
      invariant cancelled == Select(ids[..i], orders, true) && kept == Select(ids[..i], orders, false)
      invariant forall id :: id in remaining <==> id in orders && id !in cancelled
      invariant forall id :: id in remaining ==> remaining[id] == orders[id]
    {
      var id := ids[i];
      assert id !in ids[..i] by {
        forall j | 0 <= j < i ensures ids[..i][j] != id {
          assert ids[..i][j] == ids[j];
        }
      }
      SelectContents(ids[..i], orders, true);
      var order := remaining[id];
      if Open(order) {
        remaining := remaining - {id};
        cancelled := cancelled + [id];
      } else {
        kept := kept + [id];
      }
      SelectStep(ids, i, orders, true);
      SelectStep(ids, i, orders, false);
      i := i + 1;
    }
    assert ids[..i] == ids;
  }

  /** The loop of `get_portfolio_summary` over the agent's symbols: one holding per shown position. */
  method ShownHoldings(symbols: seq<string>, positions: map<string, Position>, prices: map<string, real>)
    returns (shown: map<string, Holding>)
    requires forall symbol :: symbol in symbols ==> symbol in positions
    ensures forall symbol :: symbol in symbols && Shown(positions, prices, symbol) ==> symbol in shown
    ensures forall symbol :: symbol in shown ==>
              Shown(positions, prices, symbol) && shown[symbol] == HoldingOf(positions[symbol], prices[symbol])
  {
    shown := map[];
    var i := 0;
    while i < |symbols|
      invariant 0 <= i <= |symbols|
      invariant forall symbol :: symbol in symbols[..i] && Shown(positions, prices, symbol) ==> symbol in shown
      invariant forall symbol :: symbol in shown ==>
                  Shown(positions, prices, symbol) && shown[symbol] == HoldingOf(positions[symbol], prices[symbol])
    {
      var symbol := symbols[i];
      var position := positions[symbol];
      if position.quantity != 0.0 {
        var currentPrice := if symbol in prices then Some(prices[symbol]) else None;
        if currentPrice.Some? && currentPrice.value != 0.0 {
          var price := currentPrice.value;
          shown := shown[symbol := HoldingOf(position, price)];
        }
      }
      assert symbols[..i + 1] == symbols[..i] + [symbol];
      i := i + 1;
    }
    assert symbols[..i] == symbols;
  }

  class Agent {
    const agentId: string
    var balance: real
    var symbols: seq<string>
    var positions: map<string, Position>
    var orderIds: seq<nat>
    var orders: map<nat, Order>
    var trades: seq<Trade>

    constructor(agentId: string, initialBalance: real)
      ensures Valid() && State() == Ledger(agentId, initialBalance, [], map[], [], map[], [])
    {
      this.agentId := agentId;
      balance := initialBalance;
      symbols := [];
      positions := map[];
      orderIds := [];
      orders := map[];
      trades := [];
    }

    function State(): Ledger
      reads this
    {
      Ledger(agentId, balance, symbols, positions, orderIds, orders, trades)
    }

    ghost predicate Valid()
      reads this
    {
      GoodLedger(State())
    }

    /** The position in `symbol`, created as a zero position on first use. */
    method GetPosition(symbol: string) returns (p: Position)
      requires Valid()
      modifies this
      ensures Valid() && State() == WithPosition(old(State()), symbol)
      ensures p == PositionOf(old(State()), symbol) && p == positions[symbol]
    {
      WithPositionFacts(State(), symbol);
      if symbol !in positions {
        positions := positions[symbol := CreatePosition(agentId, symbol)];
        symbols := symbols + [symbol];
      }
      p := positions[symbol];
    }

    /** Books a trade the agent was the buyer (or the seller) in; the result is the exception raised, if any. */
    method UpdatePosition(trade: Trade, isBuyer: bool) returns (error: Option<PyError>)
      requires Valid()
      modifies this
      ensures Valid()
      ensures var r := Traded(old(State()), trade, isBuyer); State() == r.Final() && error == r.Failure()
    {
      TradedFacts(State(), trade, isBuyer);
      ghost var l0 := State();
      var position := GetPosition(trade.symbol);
      if trade.price == None {
        return Some(TypeError);
      }
      var price := trade.price.value;
      var side := if isBuyer then Buy else Sell;
      var updated := UpdatedPosition(position, trade.quantity, price, side);
      positions := positions[trade.symbol := updated.Final()];
      if updated.Raised? {
        return Some(updated.error);
      }
      var tradeValue := price * trade.quantity;
      if isBuyer {
        balance := balance - tradeValue;
      } else {
        balance := balance + tradeValue;
      }
      TradedDone(l0, trade, isBuyer, price, position, updated.value, tradeValue);
      error := None;
    }

    /** Records `order` among the agent's orders under its id. */
    method Register(order: Order)
      requires Valid()
      modifies this
      ensures Valid() && State() == Registered(old(State()), order)
    {
      RegisteredFacts(State(), order);
      if order.id !in orders {
        orderIds := orderIds + [order.id];
      }
      orders := orders[order.id := order];
    }

    /** A new market order of this agent, with the fresh id `id`, recorded among its orders. */
    method CreateMarketOrder(symbol: string, side: Side, quantity: real, id: nat, now: int) returns (order: Order)
      requires Valid()
      modifies this
      ensures Valid() && State() == Registered(old(State()), order)
      ensures order == Models.CreateMarketOrder(id, symbol, side, quantity, agentId, now)
    {
      order := Models.CreateMarketOrder(id, symbol, side, quantity, agentId, now);
      Register(order);
    }

    /** A new limit order of this agent, with the fresh id `id`, recorded among its orders. */
    method CreateLimitOrder(symbol: string, side: Side, quantity: real, price: real, id: nat, now: int)
      returns (order: Order)
      requires Valid()
      modifies this
      ensures Valid() && State() == Registered(old(State()), order)
      ensures order == Models.CreateLimitOrder(id, symbol, side, quantity, price, agentId, now)
    {
      order := Models.CreateLimitOrder(id, symbol, side, quantity, price, agentId, now);
      Register(order);
    }

    /** Books a fill of one of the agent's orders; the result is the exception raised, if any. */
    method OnOrderFill(order: Order, trade: Trade) returns (error: Option<PyError>)
      requires Valid()
      modifies this
      ensures Valid()
      ensures var r := AfterFill(old(State()), order, trade); State() == r.Final() && error == r.Failure()
    {
      AfterFillFacts(State(), order, trade);
      trades := trades + [trade];
      var isBuyer := trade.buyerOrderId == order.id;
      error := UpdatePosition(trade, isBuyer);
      if error.Some? {
        return;
      }
      error := ForgetFilled(order);
    }

    /** Drops `order` from the agent's orders once it is filled. */
    method ForgetFilled(order: Order) returns (error: Option<PyError>)
      requires Valid()
      modifies this
      ensures Valid()
      ensures var r := Forgotten(old(State()), order); State() == r.Final() && error == r.Failure()
    {
      error := None;
      if order.status == Filled {
        if order.id !in orders {
          return Some(KeyError);
        }
        DroppedContents(orderIds, order.id);
        orders := orders - {order.id};
        orderIds := Dropped(orderIds, order.id);
      }
    }

    /** Cash plus quantity times price over the non-zero positions whose symbol has a price. */
    method GetPortfolioValue(prices: map<string, real>) returns (value: real)
      requires Valid()
      ensures value == PortfolioValue(State(), prices)
    {
      value := balance;
      var i := 0;
      while i < |symbols|
        invariant 0 <= i <= |symbols|
        invariant value == balance + Holdings(symbols[..i], positions, prices)
      {
        var symbol := symbols[i];
        var position := positions[symbol];
        if position.quantity != 0.0 && symbol in prices {
          value := value + position.quantity * prices[symbol];
        }
        assert symbols[..i + 1][..i] == symbols[..i];
        i := i + 1;
      }
      assert symbols[..i] == symbols;
    }

    /** The summary of the agent's books at clock reading `now`. */
    method GetPortfolioSummary(prices: map<string, real>, now: int) returns (s: Summary)
      requires Valid()
      ensures s.timestamp == now && s.agentId == agentId && s.cashBalance == balance
      ensures s.totalValue == PortfolioValue(State(), prices)
      ensures s.openOrders == |orders| && s.totalTrades == |trades|
      ensures forall symbol :: Shown(positions, prices, symbol) ==> symbol in s.positions
      ensures forall symbol :: symbol in s.positions ==>
                Shown(positions, prices, symbol) && s.positions[symbol] == HoldingOf(positions[symbol], prices[symbol])
      ensures s == SummaryOf(State(), prices, now)
    {
      var totalValue := GetPortfolioValue(prices);
      var shown := ShownHoldings(symbols, positions, prices);
      s := Summary(now, agentId, balance, totalValue, shown, |orders|, |trades|);
    }

    /** Whether the agent can afford `order`; validating a sell creates the position it looks at. */
    method ValidateOrder(order: Order, prices: map<string, real>) returns (r: Result<bool>)
      requires Valid()
      modifies this
      ensures Valid()
      ensures State() == if order.side == Sell then WithPosition(old(State()), order.symbol) else old(State())
      ensures r == Validity(old(State()), order, prices)
    {
      if order.side == Sell {
        var position := GetPosition(order.symbol);
        return Ok(position.quantity >= order.quantity);
      }
      var estimatedCost: real;
      if order.orderType == Market {
        var estimatedPrice := if order.symbol in prices then Some(prices[order.symbol]) else None;
        if estimatedPrice.None? || estimatedPrice.value == 0.0 {
          return Ok(false);
        }
        estimatedCost := estimatedPrice.value * order.quantity;
      } else {
        if order.price.None? {
          return Err(TypeError);
        }
        estimatedCost := order.price.value * order.quantity;
      }
      r := Ok(balance >= estimatedCost);
    }

    /** Cancels every open order, in the order they were placed, and returns their ids. */
    method CancelAllOrders() returns (cancelled: seq<nat>)
      requires Valid()
      modifies this
      ensures Valid()
      ensures State() == WithoutOpenOrders(old(State()))
      ensures cancelled == Select(old(orderIds), old(orders), true)
    {
      CancelAllFacts(State());
      var kept, remaining;
      cancelled, kept, remaining := SplitOpen(orderIds, orders);
      CancelledRest(old(State()), cancelled, remaining);
      orders := remaining;
      orderIds := kept;
    }
  }
}
