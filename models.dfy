/** The base entities of the market simulator (market_sim/core/models/base.py): orders, trades, the
    per-symbol order book of price levels, and trading positions. */
module Models {
  import opened Wrappers

  datatype OrderType = Market | Limit | Stop | StopLimit
  datatype Side = Buy | Sell
  datatype Status = Pending | Partial | Filled | Cancelled | Rejected

  /** An order. `price` is absent for market orders; `createdAt` is a clock reading in milliseconds. */
  datatype Order = Order(id: nat, symbol: string, side: Side, orderType: OrderType, quantity: real,
                         price: Option<real>, status: Status, filled: real, remaining: real,
                         createdAt: int, agentId: string)

  /** A trade between a buy order and a sell order, at the resting level's price. */
  datatype Trade = Trade(id: nat, symbol: string, price: Option<real>, quantity: real,
                         buyerOrderId: nat, sellerOrderId: nat)

  /** A trading position of one agent in one symbol. */
  datatype Position = Position(agentId: string, symbol: string, quantity: real, averageEntryPrice: real,
                               unrealizedPnl: real, realizedPnl: real)

  /** The result of an update that may raise after it has already changed part of the state. */
  datatype Outcome<T> = Done(value: T) | Raised(error: PyError, partial: T) {
    /** The state left behind, whether or not the update raised. */
    function Final(): T {
      match this
      case Done(v) => v
      case Raised(_, p) => p
    }

    /** The exception raised, if any. */
    function Failure(): Option<PyError> {
      match this
      case Done(_) => None
      case Raised(e, _) => Some(e)
    }
  }

  function Opposite(side: Side): Side {
    if side == Buy then Sell else Buy
  }

  /** A new market order: no price, pending, nothing filled yet. */
  function CreateMarketOrder(id: nat, symbol: string, side: Side, quantity: real, agentId: string,
                             now: int): (o: Order)
    ensures o.id == id && o.symbol == symbol && o.side == side && o.agentId == agentId && o.createdAt == now
    ensures o.orderType == Market && o.price == None && o.status == Pending
    ensures o.quantity == quantity && o.filled == 0.0 && o.remaining == quantity
  {
    Order(id, symbol, side, Market, quantity, None, Pending, 0.0, quantity, now, agentId)
  }

  /** A new limit order: the given price, pending, nothing filled yet. */
  function CreateLimitOrder(id: nat, symbol: string, side: Side, quantity: real, price: real,
                            agentId: string, now: int): (o: Order)
    ensures o.id == id && o.symbol == symbol && o.side == side && o.agentId == agentId && o.createdAt == now
    ensures o.orderType == Limit && o.price == Some(price) && o.status == Pending
    ensures o.quantity == quantity && o.filled == 0.0 && o.remaining == quantity
  {
    Order(id, symbol, side, Limit, quantity, Some(price), Pending, 0.0, quantity, now, agentId)
  }

  /** The quantities of an order add up. */
  predicate Balanced(o: Order) {
    o.filled + o.remaining == o.quantity
  }

  /** One side of a book: price level to its orders, oldest first. Market remainders rest at `None`. */
  type Book = map<Option<real>, seq<Order>>

  /** The orders of `level` whose id is not `id`, in their order. */
  function Without(level: seq<Order>, id: nat): (r: seq<Order>)
    ensures |r| <= |level|
  {
    if level == [] then []
    else (if level[0].id == id then [] else [level[0]]) + Without(level[1..], id)
  }

  /** Exactly the orders without that id stay. */
  lemma {:induction false} WithoutContents(level: seq<Order>, id: nat)
    ensures forall o :: o in Without(level, id) <==> o in level && o.id != id
  {
    if level != [] {
      WithoutContents(level[1..], id);
      assert level == [level[0]] + level[1..];
    }
  }

  predicate UniqueIds(level: seq<Order>) {
    forall i, j :: 0 <= i < j < |level| ==> level[i].id != level[j].id
  }

  /** With unique ids, removing the id of the order at index `k` removes exactly that order. */
  lemma {:induction false} WithoutUnique(level: seq<Order>, k: nat)
    requires UniqueIds(level) && k < |level|
    ensures Without(level, level[k].id) == level[..k] + level[k + 1..]
  {
    var id := level[k].id;
    var tail := level[1..];
    TailFacts(level);
    if k == 0 {
      WithoutAbsent(tail, id);
    } else {
      WithoutUnique(tail, k - 1);
      assert tail[k - 1] == level[k];
      assert tail[..k - 1] == level[1..k] && tail[k..] == level[k + 1..];
      calc {
        Without(level, id);
        [level[0]] + Without(tail, id);
        [level[0]] + (level[1..k] + level[k + 1..]);
        { assert [level[0]] + level[1..k] == level[..k]; }
        level[..k] + level[k + 1..];
      }
    }
  }

  /** The tail of a level with unique ids has unique ids, none of them the head's. */
  lemma TailFacts(level: seq<Order>)
    requires UniqueIds(level) && level != []
    ensures UniqueIds(level[1..])
    ensures forall o :: o in level[1..] ==> o.id != level[0].id
  {
    var tail := level[1..];
    forall i, j | 0 <= i < j < |tail| ensures tail[i].id != tail[j].id {
      assert tail[i] == level[i + 1] && tail[j] == level[j + 1];
    }
    forall o | o in tail ensures o.id != level[0].id {
      var i :| 0 <= i < |tail| && tail[i] == o;
      assert o == level[i + 1];
    }
  }

  /** Removing an id no order has changes nothing. */
  lemma {:induction false} WithoutAbsent(level: seq<Order>, id: nat)
    requires forall o :: o in level ==> o.id != id
    ensures Without(level, id) == level
  {
    if level != [] {
      WithoutAbsent(level[1..], id);
      assert [level[0]] + level[1..] == level;
    }
  }

  /** The side after `order` joins the back of the level at `price`, the level being created if absent. */
  function Appended(book: Book, price: Option<real>, order: Order): (r: Book)
    ensures price in r && r[price] == (if price in book then book[price] else []) + [order]
    ensures forall p :: p != price ==> (p in r <==> p in book) && (p in book ==> r[p] == book[p])
  {
    book[price := (if price in book then book[price] else []) + [order]]
  }

  /** The side after the orders with `id` leave the level at `price`; a level left empty is deleted and an
      absent level changes nothing. */
  function Removed(book: Book, price: Option<real>, id: nat): (r: Book)
    ensures price !in book ==> r == book
    ensures price in book ==>
              var rest := Without(book[price], id);
              (rest == [] ==> price !in r) && (rest != [] ==> price in r && r[price] == rest)
    ensures forall p :: p != price ==> (p in r <==> p in book) && (p in book ==> r[p] == book[p])
  {
    if price !in book then book
    else
      var rest := Without(book[price], id);
      if rest == [] then book - {price} else book[price := rest]
  }

  /** The level at `price` replaced by `level`; an empty level is deleted. */
  function SetLevel(book: Book, price: Option<real>, level: seq<Order>): Book {
    if level == [] then book - {price} else book[price := level]
  }

  /** The orders of a level rest at that level's price, on that side, with something left to fill, and
      carry distinct ids. */
  ghost predicate GoodLevel(level: seq<Order>, price: Option<real>, side: Side) {
    && UniqueIds(level)
    && forall i :: 0 <= i < |level| ==> level[i].price == price && level[i].side == side && level[i].remaining > 0.0
  }

  /** No side holds an empty level, and every level is good. */
  ghost predicate GoodBook(book: Book, side: Side) {
    forall p :: p in book ==> book[p] != [] && GoodLevel(book[p], p, side)
  }

  /** No order of `book` carries `id`. */
  predicate FreshIn(book: Book, id: nat) {
    forall p :: p in book ==> forall o :: o in book[p] ==> o.id != id
  }

  class OrderBook {
    const symbol: string
    var bids: Book
    var asks: Book

    constructor(symbol: string)
      ensures this.symbol == symbol && bids == map[] && asks == map[]
    {
      this.symbol := symbol;
      bids := map[];
      asks := map[];
    }

    /** The book of one side: bids for buys, asks for sells. */
    function SideBook(side: Side): Book
      reads this
    {
      if side == Buy then bids else asks
    }

    /** Both sides are well formed. */
    ghost predicate Valid()
      reads this
    {
      GoodBook(bids, Buy) && GoodBook(asks, Sell)
    }

    /** Puts the order at the back of its own side's level at its price. */
    method AddOrder(order: Order)
      modifies this
      ensures SideBook(order.side) == Appended(old(SideBook(order.side)), order.price, order)
      ensures SideBook(Opposite(order.side)) == old(SideBook(Opposite(order.side)))
    {
      if order.side == Buy {
        bids := Appended(bids, order.price, order);
      } else {
        asks := Appended(asks, order.price, order);
      }
    }

    /** The orders at a price on one side, or none for a price without a level. */
    function GetOrdersAtPrice(side: Side, price: Option<real>): (r: seq<Order>)
      reads this
      ensures price !in SideBook(side) ==> r == []
      ensures price in SideBook(side) ==> r == SideBook(side)[price]
    {
      var book := SideBook(side);
      if price in book then book[price] else []
    }

    /** Takes every order with the order's id out of the level at the order's price on its side. */
    method RemoveOrder(order: Order)
      modifies this
      ensures SideBook(order.side) == Removed(old(SideBook(order.side)), order.price, order.id)
      ensures SideBook(Opposite(order.side)) == old(SideBook(Opposite(order.side)))
    {
      if order.side == Buy {
        bids := Removed(bids, order.price, order.id);
      } else {
        asks := Removed(asks, order.price, order.id);
      }
    }

    /** Puts `level` in place of the level at `price` on one side, deleting the level when it is empty: the
        in-place updates and removals of the orders a level holds. */
    method PutLevel(side: Side, price: Option<real>, level: seq<Order>)
      modifies this
      ensures SideBook(side) == SetLevel(old(SideBook(side)), price, level)
      ensures SideBook(Opposite(side)) == old(SideBook(Opposite(side)))
    {
      if side == Buy {
        bids := SetLevel(bids, price, level);
      } else {
        asks := SetLevel(asks, price, level);
      }
    }
  }

  /** A resting order joining a good book keeps it good. */
  lemma AppendedGood(book: Book, side: Side, order: Order)
    requires GoodBook(book, side) && FreshIn(book, order.id)
    requires order.side == side && order.remaining > 0.0
    ensures GoodBook(Appended(book, order.price, order), side)
  {
    var r := Appended(book, order.price, order);
    var level := r[order.price];
    assert forall i :: 0 <= i < |level| - 1 ==> level[i] in book[order.price];
  }

  /** A new position: nothing held, no average price, no profit or loss. */
  function CreatePosition(agentId: string, symbol: string): (p: Position)
    ensures p.agentId == agentId && p.symbol == symbol
    ensures p.quantity == 0.0 && p.averageEntryPrice == 0.0 && p.unrealizedPnl == 0.0 && p.realizedPnl == 0.0
  {
    Position(agentId, symbol, 0.0, 0.0, 0.0, 0.0)
  }

  /** The position after a trade of `quantity` at `price` on `side`. A buy into an empty position only
      records the price as the average; a buy that brings the quantity to zero raises on the average's
      division after the quantity has changed. */
  function UpdatedPosition(p: Position, quantity: real, price: real, side: Side): (r: Outcome<Position>)
    ensures side == Sell ==> r.Done? && r.value == p.(realizedPnl := p.realizedPnl + (price - p.averageEntryPrice) * quantity,
                                                    quantity := p.quantity - quantity)
    ensures side == Buy && p.quantity == 0.0 ==> r == Done(p.(averageEntryPrice := price))
    ensures side == Buy && p.quantity != 0.0 && p.quantity + quantity == 0.0 ==>
              r.Raised? && r.partial == p.(quantity := 0.0)
    ensures side == Buy && p.quantity != 0.0 && p.quantity + quantity != 0.0 ==>
              && r.Done? && r.value.quantity == p.quantity + quantity
              && r.value.realizedPnl == p.realizedPnl && r.value.unrealizedPnl == p.unrealizedPnl
  {
    if side == Buy then
      if p.quantity == 0.0 then Done(p.(averageEntryPrice := price))
      else
        var totalCost := p.averageEntryPrice * p.quantity + price * quantity;
        var q := p.quantity + quantity;
        if q == 0.0 then Raised(if totalCost == 0.0 then DecimalInvalidOperation else ZeroDivisionError, p.(quantity := q))
        else Done(p.(quantity := q, averageEntryPrice := totalCost / q))
    else
      Done(p.(realizedPnl := p.realizedPnl + (price - p.averageEntryPrice) * quantity,
              quantity := p.quantity - quantity))
  }

  /** A buy into a held position makes the new average price the cost-weighted average of the old position
      and the trade: quantity times average is the old cost plus the trade's cost. */
  lemma BuyAveragesCost(p: Position, quantity: real, price: real)
    requires p.quantity != 0.0 && p.quantity + quantity != 0.0
    ensures var r := UpdatedPosition(p, quantity, price, Buy);
            r.Done? && r.value.averageEntryPrice * r.value.quantity == p.averageEntryPrice * p.quantity + price * quantity
  {
    var totalCost := p.averageEntryPrice * p.quantity + price * quantity;
    var q := p.quantity + quantity;
    assert totalCost / q * q == totalCost;
  }

  /** Buying more at the average price keeps the average. */
  lemma BuyAtAverageKeepsAverage(p: Position, quantity: real)
    requires p.quantity != 0.0 && p.quantity + quantity != 0.0
    ensures var r := UpdatedPosition(p, quantity, p.averageEntryPrice, Buy);
            r.Done? && r.value.averageEntryPrice == p.averageEntryPrice
  {
    var r := UpdatedPosition(p, quantity, p.averageEntryPrice, Buy);
    var q := p.quantity + quantity;
    assert r.value.averageEntryPrice * q == p.averageEntryPrice * q;
  }

  /** Selling at the average price realises nothing. */
  lemma SellAtAverageRealisesNothing(p: Position, quantity: real)
    ensures UpdatedPosition(p, quantity, p.averageEntryPrice, Sell).value.realizedPnl == p.realizedPnl
  {
  }
}
