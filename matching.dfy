/** The matching engine of one symbol (market_sim/market/exchange/matching_engine.py): price-time priority
    matching of market and limit orders against the resting levels of the opposite side, fills at the
    resting level's price, cancellation by id and a depth snapshot. */
module Matching {
  import opened Wrappers
  import opened Models

  // ---------------------------------------------------------------------------------------------
  // Ordering the price levels (Python's `sorted`, `min` and `max` over the level prices)

  /** `a` is a strictly lower price than `b`; an absent price compares with nothing. */
  predicate Below(a: Option<real>, b: Option<real>) {
    a.Some? && b.Some? && a.value < b.value
  }

  /** Strictly ascending, or strictly descending when `desc`. */
  ghost predicate Ordered(s: seq<Option<real>>, desc: bool) {
    forall i, j :: 0 <= i < j < |s| ==> if desc then Below(s[j], s[i]) else Below(s[i], s[j])
  }

  /** `m` comes first among `keys`: the highest price, or the lowest. */
  predicate First(m: Option<real>, keys: set<Option<real>>, highest: bool)
    requires None !in keys
  {
    m in keys && forall k :: k in keys ==> if highest then k.value <= m.value else m.value <= k.value
  }

  lemma {:induction false} FirstExists(keys: set<Option<real>>, highest: bool)
    requires keys != {} && None !in keys
    ensures exists m :: First(m, keys, highest)
  {
    var x :| x in keys;
    if keys != {x} {
      FirstExists(keys - {x}, highest);
      var m :| First(m, keys - {x}, highest);
      if (if highest then m.value < x.value else x.value < m.value) {
        assert First(x, keys, highest);
      } else {
        assert First(m, keys, highest);
      }
    } else {
      assert First(x, keys, highest);
    }
  }

  /** The highest or the lowest of a set of present prices. */
  function Extreme(keys: set<Option<real>>, highest: bool): (m: Option<real>)
    requires keys != {} && None !in keys
    ensures First(m, keys, highest)
  {
    FirstExists(keys, highest);
    assert forall a, b :: First(a, keys, highest) && First(b, keys, highest) ==> a == b by {
      forall a, b | First(a, keys, highest) && First(b, keys, highest) ensures a == b {
        assert a.value == b.value;
      }
    }
    var m :| First(m, keys, highest);
    m
  }

  /** A set of present prices in sorting order. */
  function SortedPrices(keys: set<Option<real>>, desc: bool): (s: seq<Option<real>>)
    requires None !in keys
    ensures |s| == |keys| && (forall k :: k in s <==> k in keys) && Ordered(s, desc)
    decreases |keys|
  {
    if keys == {} then []
    else
      var m := Extreme(keys, desc);
      var rest := SortedPrices(keys - {m}, desc);
      PrependFirst(m, keys, rest, desc);
      [m] + rest
  }

  /** The first of a set of prices, put before the others in order, orders them all. */
  lemma PrependFirst(m: Option<real>, keys: set<Option<real>>, rest: seq<Option<real>>, desc: bool)
    requires None !in keys && First(m, keys, desc)
    requires |rest| == |keys - {m}| && (forall k :: k in rest <==> k in keys - {m}) && Ordered(rest, desc)
    ensures |[m] + rest| == |keys| && (forall k :: k in [m] + rest <==> k in keys) && Ordered([m] + rest, desc)
  {
    var s := [m] + rest;
    assert |keys - {m}| == |keys| - 1;
    forall i, j | 0 <= i < j < |s| ensures if desc then Below(s[j], s[i]) else Below(s[i], s[j]) {
      if i == 0 {
        assert s[j] == rest[j - 1] && s[j] in keys - {m};
        assert s[j].value != m.value;
      } else {
        assert s[i] == rest[i - 1] && s[j] == rest[j - 1];
      }
    }
  }

  /** The prices of a side in sorting order: a set holding `None` besides another price cannot be sorted. */
  function SortKeys(keys: set<Option<real>>, desc: bool): (r: Result<seq<Option<real>>>)
    ensures r.Err? <==> None in keys && |keys| > 1
    ensures r.Ok? ==> |r.value| == |keys| && (forall k :: k in r.value <==> k in keys) && Ordered(r.value, desc)
  {
    if None in keys then
      if |keys| > 1 then Err(TypeError)
      else
        assert keys == {None} by {
          assert |keys - {None}| == |keys| - 1;
        }
        Ok([None])
    else Ok(SortedPrices(keys, desc))
  }

  /** The best price of a non-empty side: the lowest ask for a buyer, the highest bid for a seller. */
  function BestPrice(keys: set<Option<real>>, highest: bool): (r: Result<Option<real>>)
    requires keys != {}
    ensures r.Err? <==> None in keys && |keys| > 1
    ensures r.Ok? ==> r.value in keys && forall k :: k in keys && k != r.value ==>
                        if highest then Below(k, r.value) else Below(r.value, k)
  {
    if None in keys then
      if |keys| > 1 then Err(TypeError)
      else
        assert keys == {None} by {
          assert |keys - {None}| == |keys| - 1;
        }
        Ok(None)
    else
      var m := Extreme(keys, highest);
      assert forall k :: k in keys && k != m ==> k.value != m.value;
      Ok(m)
  }

  /** The best price is the first of the sorted prices. */
  lemma BestIsFirstSorted(keys: set<Option<real>>, highest: bool)
    requires keys != {} && BestPrice(keys, highest).Ok?
    ensures SortKeys(keys, highest).Ok? && SortKeys(keys, highest).value[0] == BestPrice(keys, highest).value
  {
    var s := SortKeys(keys, highest).value;
    var b := BestPrice(keys, highest).value;
    var i :| 0 <= i < |s| && s[i] == b;
    assert s[0] in keys;
  }

  // ---------------------------------------------------------------------------------------------
  // Fills

  /** An order after `q` more of it is filled: filled once nothing remains, partially filled otherwise. */
  function Updated(o: Order, q: real): (r: Order)
    ensures r.filled == o.filled + q && r.remaining == o.remaining - q
    ensures r.status == (if r.remaining == 0.0 then Filled else Partial)
    ensures r == o.(filled := r.filled, remaining := r.remaining, status := r.status)
  {
    var remaining := o.remaining - q;
    o.(filled := o.filled + q, remaining := remaining, status := if remaining == 0.0 then Filled else Partial)
  }

  /** A fill keeps the quantities of an order adding up. */
  lemma UpdatedBalanced(o: Order, q: real)
    requires Balanced(o)
    ensures Balanced(Updated(o, q))
  {
  }

  /** The trade of a fill: the taker is the buyer when it buys, the seller otherwise. */
  function CreateTrade(symbol: string, taker: Order, maker: Order, quantity: real, price: Option<real>,
                       id: nat): (t: Trade)
    ensures t.id == id && t.symbol == symbol && t.price == price && t.quantity == quantity
    ensures taker.side == Buy ==> t.buyerOrderId == taker.id && t.sellerOrderId == maker.id
    ensures taker.side == Sell ==> t.buyerOrderId == maker.id && t.sellerOrderId == taker.id
  {
    if taker.side == Buy then Trade(id, symbol, price, quantity, taker.id, maker.id)
    else Trade(id, symbol, price, quantity, maker.id, taker.id)
  }

  function TotalQuantity(trades: seq<Trade>): real {
    if trades == [] then 0.0 else trades[0].quantity + TotalQuantity(trades[1..])
  }

  lemma {:induction false} TotalQuantityAppend(a: seq<Trade>, b: seq<Trade>)
    ensures TotalQuantity(a + b) == TotalQuantity(a) + TotalQuantity(b)
  {
    if a != [] {
      assert (a + b)[1..] == a[1..] + b;
      TotalQuantityAppend(a[1..], b);
    } else {
      assert a + b == b;
    }
  }

  /** An order that stays at its level: one with something left. */
  function Keep(o: Order): seq<Order> {
    if o.remaining == 0.0 then [] else [o]
  }

  /** The taker, the level and the trades after the taker has met one level. */
  datatype LevelFill = LevelFill(taker: Order, level: seq<Order>, trades: seq<Trade>, nextId: nat)

  /** The taker meets the orders of a level oldest first, each fill the smaller of the two remaining
      quantities, until it or the level is used up; filled makers leave the level. */
  function FillLevel(level: seq<Order>, taker: Order, price: Option<real>, symbol: string, nextId: nat): (f: LevelFill)
    ensures f.nextId == nextId + |f.trades|
    decreases |level|
  {
    if level == [] || taker.remaining <= 0.0 then LevelFill(taker, level, [], nextId)
    else
      var q := Min(taker.remaining, level[0].remaining);
      var t := CreateTrade(symbol, taker, level[0], q, price, nextId);
      var rest := FillLevel(level[1..], Updated(taker, q), price, symbol, nextId + 1);
      LevelFill(rest.taker, Keep(Updated(level[0], q)) + rest.level, [t] + rest.trades, rest.nextId)
  }

  ghost function IdsOf(level: seq<Order>): set<nat> {
    set o | o in level :: o.id
  }

  /** The orders after the first of a good level form a good level. */
  lemma GoodTail(level: seq<Order>, price: Option<real>, side: Side)
    requires GoodLevel(level, price, side) && level != []
    ensures GoodLevel(level[1..], price, side) && level[0].id !in IdsOf(level[1..])
  {
    TailFacts(level);
    forall i | 0 <= i < |level[1..]|
      ensures level[1..][i].price == price && level[1..][i].side == side && level[1..][i].remaining > 0.0
    {
      assert level[1..][i] == level[i + 1];
    }
  }

  /** The first fill of a level that the taker meets with something left. */
  lemma FillLevelUnfold(level: seq<Order>, taker: Order, price: Option<real>, symbol: string, nextId: nat)
    requires level != [] && taker.remaining > 0.0
    ensures var q := Min(taker.remaining, level[0].remaining);
            var rest := FillLevel(level[1..], Updated(taker, q), price, symbol, nextId + 1);
            FillLevel(level, taker, price, symbol, nextId) ==
              LevelFill(rest.taker, Keep(Updated(level[0], q)) + rest.level,
                        [CreateTrade(symbol, taker, level[0], q, price, nextId)] + rest.trades, rest.nextId)
  {
  }

  /** The head of a level, kept or not, in front of what is left of its tail holds only ids of the level. */
  lemma KeptIds(kept: seq<Order>, rest: seq<Order>, level: seq<Order>)
    requires level != [] && IdsOf(rest) <= IdsOf(level[1..])
    requires kept == [] || (kept == [kept[0]] && kept[0].id == level[0].id)
    ensures IdsOf(kept + rest) <= IdsOf(level)
  {
    IdsOfTail(level);
    forall o: Order | o in kept + rest ensures o.id in IdsOf(level) {
      if o in kept {
        assert o.id == level[0].id;
      } else {
        assert o.id in IdsOf(rest);
      }
    }
  }

  /** What one level leaves of itself: a good level whose orders were already there, empty unless the taker
      is used up. */
  lemma {:induction false} FillLevelLeavesLevel(level: seq<Order>, taker: Order, price: Option<real>, symbol: string,
                                                nextId: nat)
    requires GoodLevel(level, price, Opposite(taker.side))
    ensures var f := FillLevel(level, taker, price, symbol, nextId);
            && GoodLevel(f.level, price, Opposite(taker.side)) && IdsOf(f.level) <= IdsOf(level)
            && (f.level == [] || f.taker.remaining <= 0.0)
  {
    if level != [] && taker.remaining > 0.0 {
      var q := Min(taker.remaining, level[0].remaining);
      var taker' := Updated(taker, q);
      var rest := FillLevel(level[1..], taker', price, symbol, nextId + 1);
      FillLevelUnfold(level, taker, price, symbol, nextId);
      GoodTail(level, price, Opposite(taker.side));
      FillLevelLeavesLevel(level[1..], taker', price, symbol, nextId + 1);
      var kept := Keep(Updated(level[0], q));
      KeptGood(kept, rest.level, level[0], price, Opposite(taker.side));
      KeptIds(kept, rest.level, level);
    }
  }

  /** The resting order a trade was made against: the seller of a buyer's trade, the buyer of a seller's. */
  function MakerId(t: Trade, takerSide: Side): nat {
    if takerSide == Buy then t.sellerOrderId else t.buyerOrderId
  }

  /** Trades numbered consecutively from `n`. */
  ghost predicate NumberedFrom(trades: seq<Trade>, n: nat) {
    forall i :: 0 <= i < |trades| ==> trades[i].id == n + i
  }

  lemma NumberedAppend(a: seq<Trade>, b: seq<Trade>, n: nat)
    requires NumberedFrom(a, n) && NumberedFrom(b, n + |a|)
    ensures NumberedFrom(a + b, n)
  {
    forall i | |a| <= i < |a + b| ensures (a + b)[i].id == n + i {
      assert (a + b)[i] == b[i - |a|];
    }
  }

  /** The trades of a level are numbered consecutively from the next trade number. */
  lemma {:induction false} FillLevelNumbers(level: seq<Order>, taker: Order, price: Option<real>, symbol: string,
                                            nextId: nat)
    ensures NumberedFrom(FillLevel(level, taker, price, symbol, nextId).trades, nextId)
  {
    if level != [] && taker.remaining > 0.0 {
      var q := Min(taker.remaining, level[0].remaining);
      var rest := FillLevel(level[1..], Updated(taker, q), price, symbol, nextId + 1);
      FillLevelUnfold(level, taker, price, symbol, nextId);
      FillLevelNumbers(level[1..], Updated(taker, q), price, symbol, nextId + 1);
      NumberedAppend([CreateTrade(symbol, taker, level[0], q, price, nextId)], rest.trades, nextId);
    }
  }

  /** Time priority within a level: the taker meets a prefix of the level, oldest first, trade `i` being
      against the order at index `i`. */
  lemma {:induction false} FillLevelInOrder(level: seq<Order>, taker: Order, price: Option<real>, symbol: string,
                                            nextId: nat)
    ensures var f := FillLevel(level, taker, price, symbol, nextId);
            && |f.trades| <= |level|
            && forall i :: 0 <= i < |f.trades| ==> MakerId(f.trades[i], taker.side) == level[i].id
  {
    var f := FillLevel(level, taker, price, symbol, nextId);
    if level != [] && taker.remaining > 0.0 {
      var q := Min(taker.remaining, level[0].remaining);
      var taker' := Updated(taker, q);
      var rest := FillLevel(level[1..], taker', price, symbol, nextId + 1);
      FillLevelUnfold(level, taker, price, symbol, nextId);
      FillLevelInOrder(level[1..], taker', price, symbol, nextId + 1);
      forall i | 0 < i < |f.trades| ensures MakerId(f.trades[i], taker.side) == level[i].id {
        assert f.trades[i] == rest.trades[i - 1] && level[i] == level[1..][i - 1];
      }
    }
  }

  /** What time priority leaves of a level: every maker met but the last is filled completely, and the
      level is the untouched rest, headed by the last maker met when that one is only partly filled. */
  lemma {:induction false} FillLevelLeavesRest(level: seq<Order>, taker: Order, price: Option<real>, symbol: string,
                                               nextId: nat)
    ensures var f := FillLevel(level, taker, price, symbol, nextId);
            var k := |f.trades|;
            && k <= |level|
            && (forall i :: 0 <= i < k - 1 ==> f.trades[i].quantity == level[i].remaining)
            && (f.level == level[k..] ||
                (0 < k && f.level == [Updated(level[k - 1], f.trades[k - 1].quantity)] + level[k..] &&
                 f.level[0].remaining > 0.0))
  {
    var f := FillLevel(level, taker, price, symbol, nextId);
    if level != [] && taker.remaining > 0.0 {
      var q := Min(taker.remaining, level[0].remaining);
      var taker' := Updated(taker, q);
      var rest := FillLevel(level[1..], taker', price, symbol, nextId + 1);
      FillLevelUnfold(level, taker, price, symbol, nextId);
      FillLevelLeavesRest(level[1..], taker', price, symbol, nextId + 1);
      var k := |f.trades|;
      if rest.trades == [] {
        assert rest.level == level[1..];
      } else {
        assert taker'.remaining > 0.0;
        assert Keep(Updated(level[0], q)) == [];
        assert level[k..] == level[1..][k - 1..];
        forall i | 0 < i < k - 1 ensures f.trades[i].quantity == level[i].remaining {
          assert f.trades[i] == rest.trades[i - 1] && level[i] == level[1..][i - 1];
        }
      }
    }
  }

  /** What one level does to the taker: only its quantities and status change, and the trades, at the
      level's price for positive quantities, total what it lost. */
  lemma {:induction false} FillLevelTaker(level: seq<Order>, taker: Order, price: Option<real>, symbol: string,
                                          nextId: nat)
    ensures var f := FillLevel(level, taker, price, symbol, nextId);
            && f.taker == taker.(filled := f.taker.filled, remaining := f.taker.remaining, status := f.taker.status)
            && f.taker.remaining == taker.remaining - TotalQuantity(f.trades)
            && f.taker.filled == taker.filled + TotalQuantity(f.trades)
            && (taker.remaining >= 0.0 ==> f.taker.remaining >= 0.0)
            && forall t :: t in f.trades ==> t.price == price
  {
    var f := FillLevel(level, taker, price, symbol, nextId);
    if level != [] && taker.remaining > 0.0 {
      var q := Min(taker.remaining, level[0].remaining);
      var rest := FillLevel(level[1..], Updated(taker, q), price, symbol, nextId + 1);
      FillLevelTaker(level[1..], Updated(taker, q), price, symbol, nextId + 1);
      assert f.trades == [CreateTrade(symbol, taker, level[0], q, price, nextId)] + rest.trades;
      assert TotalQuantity(f.trades) == q + TotalQuantity(rest.trades);
    }
  }

  /** Against makers with something left, every fill is for a positive quantity. */
  lemma {:induction false} FillLevelPositive(level: seq<Order>, taker: Order, price: Option<real>, symbol: string,
                                             nextId: nat)
    requires forall i :: 0 <= i < |level| ==> level[i].remaining > 0.0
    ensures var f := FillLevel(level, taker, price, symbol, nextId);
            forall t :: t in f.trades ==> t.quantity > 0.0
  {
    var f := FillLevel(level, taker, price, symbol, nextId);
    if level != [] && taker.remaining > 0.0 {
      var q := Min(taker.remaining, level[0].remaining);
      var rest := FillLevel(level[1..], Updated(taker, q), price, symbol, nextId + 1);
      assert forall i :: 0 <= i < |level[1..]| ==> level[1..][i] == level[i + 1];
      FillLevelPositive(level[1..], Updated(taker, q), price, symbol, nextId + 1);
      assert f.trades == [CreateTrade(symbol, taker, level[0], q, price, nextId)] + rest.trades;
    }
  }

  lemma IdsOfTail(level: seq<Order>)
    requires level != []
    ensures IdsOf(level) == {level[0].id} + IdsOf(level[1..])
  {
    assert forall o :: o in level <==> o == level[0] || o in level[1..];
  }

  /** A surviving maker in front of a good rest of the level, whose ids do not include the maker's, is a
      good level. */
  lemma KeptGood(kept: seq<Order>, rest: seq<Order>, maker: Order, price: Option<real>, side: Side)
    requires GoodLevel(rest, price, side) && maker.price == price && maker.side == side
    requires maker.id !in IdsOf(rest)
    requires kept == [] || (kept == [kept[0]] && kept[0].id == maker.id && kept[0].price == price &&
                            kept[0].side == side && kept[0].remaining > 0.0)
    ensures GoodLevel(kept + rest, price, side)
  {
    var l := kept + rest;
    if kept != [] {
      forall j | 0 < j < |l| ensures l[0].id != l[j].id {
        assert l[j] == rest[j - 1] && l[j] in rest;
      }
      forall i, j | 0 < i < j < |l| ensures l[i].id != l[j].id {
        assert l[i] == rest[i - 1] && l[j] == rest[j - 1];
      }
      forall i | 0 < i < |l| ensures l[i].price == price && l[i].side == side && l[i].remaining > 0.0 {
        assert l[i] == rest[i - 1];
      }
    }
  }

  // ---------------------------------------------------------------------------------------------
  // Walking the levels

  /** The taker may trade at `price`: always for a market order; a buy limit up to its price and a sell
      limit down to it. */
  predicate Crosses(taker: Order, price: Option<real>) {
    if taker.orderType == Market then true
    else
      && price.Some? && taker.price.Some?
      && if taker.side == Buy then price.value <= taker.price.value else price.value >= taker.price.value
  }

  /** Crossing depends only on the order's type, side and price. */
  lemma SameCrossing(a: Order, b: Order, price: Option<real>)
    requires a.orderType == b.orderType && a.side == b.side && a.price == b.price
    ensures Crosses(a, price) == Crosses(b, price)
  {
  }

  datatype Swept = Swept(book: Book, taker: Order, trades: seq<Trade>, nextId: nat)

  /** The taker walks the levels `prices` of the opposite side in turn, stopping once it is used up or at
      the first level it does not cross. */
  function Sweep(book: Book, prices: seq<Option<real>>, taker: Order, symbol: string, nextId: nat): (s: Swept)
    ensures s.nextId == nextId + |s.trades|
    decreases |prices|
  {
    if prices == [] || taker.remaining <= 0.0 || !Crosses(taker, prices[0]) then Swept(book, taker, [], nextId)
    else
      var f := FillLevel(if prices[0] in book then book[prices[0]] else [], taker, prices[0], symbol, nextId);
      var rest := Sweep(SetLevel(book, prices[0], f.level), prices[1..], f.taker, symbol, f.nextId);
      Swept(rest.book, rest.taker, f.trades + rest.trades, rest.nextId)
  }

  /** Every price of `prices` is a level of `book`, once. */
  ghost predicate Levels(book: Book, prices: seq<Option<real>>) {
    (forall i :: 0 <= i < |prices| ==> prices[i] in book) &&
    (forall i, j :: 0 <= i < j < |prices| ==> prices[i] != prices[j])
  }

  lemma LevelsTail(book: Book, prices: seq<Option<real>>, level: seq<Order>)
    requires Levels(book, prices) && prices != []
    ensures Levels(SetLevel(book, prices[0], level), prices[1..])
  {
    forall i | 0 <= i < |prices[1..]| ensures prices[1..][i] in SetLevel(book, prices[0], level) {
      assert prices[1..][i] == prices[i + 1] && prices[i + 1] != prices[0];
    }
    forall i, j | 0 <= i < j < |prices[1..]| ensures prices[1..][i] != prices[1..][j] {
      assert prices[1..][i] == prices[i + 1] && prices[1..][j] == prices[j + 1];
    }
  }

  lemma SetLevelGood(book: Book, price: Option<real>, level: seq<Order>, side: Side)
    requires GoodBook(book, side) && GoodLevel(level, price, side)
    ensures GoodBook(SetLevel(book, price, level), side)
  {
  }

  /** One step of a walk: the level at the first price filled, and the side it leaves. */
  lemma WalkStep(book: Book, prices: seq<Option<real>>, taker: Order, symbol: string, nextId: nat)
    requires GoodBook(book, Opposite(taker.side)) && Levels(book, prices)
    requires prices != [] && taker.remaining > 0.0 && Crosses(taker, prices[0])
    ensures var f := FillLevel(book[prices[0]], taker, prices[0], symbol, nextId);
            var b := SetLevel(book, prices[0], f.level);
            && GoodBook(b, Opposite(taker.side)) && Levels(b, prices[1..])
            && f.taker == taker.(filled := f.taker.filled, remaining := f.taker.remaining, status := f.taker.status)
  {
    var p := prices[0];
    var f := FillLevel(book[p], taker, p, symbol, nextId);
    FillLevelLeavesLevel(book[p], taker, p, symbol, nextId);
    FillLevelTaker(book[p], taker, p, symbol, nextId);
    SetLevelGood(book, p, f.level, Opposite(taker.side));
    LevelsTail(book, prices, f.level);
  }

  /** A walk leaves the side it walks well formed. */
  lemma {:induction false} SweepKeepsBook(book: Book, prices: seq<Option<real>>, taker: Order, symbol: string, nextId: nat)
    requires GoodBook(book, Opposite(taker.side)) && Levels(book, prices)
    ensures GoodBook(Sweep(book, prices, taker, symbol, nextId).book, Opposite(taker.side))
  {
    if prices != [] && taker.remaining > 0.0 && Crosses(taker, prices[0]) {
      WalkStep(book, prices, taker, symbol, nextId);
      var f := FillLevel(book[prices[0]], taker, prices[0], symbol, nextId);
      SweepKeepsBook(SetLevel(book, prices[0], f.level), prices[1..], f.taker, symbol, f.nextId);
    }
  }

  /** A walk changes the taker only in its quantities and status; what it lost is what it traded. */
  lemma {:induction false} SweepTaker(book: Book, prices: seq<Option<real>>, taker: Order, symbol: string, nextId: nat)
    ensures var s := Sweep(book, prices, taker, symbol, nextId);
            && s.taker == taker.(filled := s.taker.filled, remaining := s.taker.remaining, status := s.taker.status)
            && s.taker.remaining == taker.remaining - TotalQuantity(s.trades)
            && s.taker.filled == taker.filled + TotalQuantity(s.trades)
            && (taker.remaining >= 0.0 ==> s.taker.remaining >= 0.0)
  {
    if prices != [] && taker.remaining > 0.0 && Crosses(taker, prices[0]) {
      var level := if prices[0] in book then book[prices[0]] else [];
      var f := FillLevel(level, taker, prices[0], symbol, nextId);
      FillLevelTaker(level, taker, prices[0], symbol, nextId);
      var b := SetLevel(book, prices[0], f.level);
      SweepTaker(b, prices[1..], f.taker, symbol, f.nextId);
      TotalQuantityAppend(f.trades, Sweep(b, prices[1..], f.taker, symbol, f.nextId).trades);
    }
  }

  /** The first step of a walk that crosses its first level. */
  lemma SweepUnfold(book: Book, prices: seq<Option<real>>, taker: Order, symbol: string, nextId: nat)
    requires prices != [] && taker.remaining > 0.0 && Crosses(taker, prices[0])
    ensures var f := FillLevel(if prices[0] in book then book[prices[0]] else [], taker, prices[0], symbol, nextId);
            var rest := Sweep(SetLevel(book, prices[0], f.level), prices[1..], f.taker, symbol, f.nextId);
            Sweep(book, prices, taker, symbol, nextId) == Joined(rest, f.trades)
  {
  }

  /** A walk trades only at levels it walks and crosses. */
  lemma {:induction false} SweepTrades(book: Book, prices: seq<Option<real>>, taker: Order, symbol: string, nextId: nat)
    ensures forall t :: t in Sweep(book, prices, taker, symbol, nextId).trades ==> t.price in prices && Crosses(taker, t.price)
  {
    if prices != [] && taker.remaining > 0.0 && Crosses(taker, prices[0]) {
      var level := if prices[0] in book then book[prices[0]] else [];
      var f := FillLevel(level, taker, prices[0], symbol, nextId);
      FillLevelTaker(level, taker, prices[0], symbol, nextId);
      var b := SetLevel(book, prices[0], f.level);
      SweepTrades(b, prices[1..], f.taker, symbol, f.nextId);
      SweepUnfold(book, prices, taker, symbol, nextId);
      var rest := Sweep(b, prices[1..], f.taker, symbol, f.nextId);
      forall t | t in rest.trades ensures t.price in prices && Crosses(taker, t.price) {
        SameCrossing(f.taker, taker, t.price);
      }
    }
  }

  /** On a good side every trade of a walk is for a positive quantity. */
  lemma {:induction false} SweepPositive(book: Book, prices: seq<Option<real>>, taker: Order, symbol: string, nextId: nat)
    requires GoodBook(book, Opposite(taker.side)) && Levels(book, prices)
    ensures forall t :: t in Sweep(book, prices, taker, symbol, nextId).trades ==> t.quantity > 0.0
  {
    if prices != [] && taker.remaining > 0.0 && Crosses(taker, prices[0]) {
      WalkStep(book, prices, taker, symbol, nextId);
      var f := FillLevel(book[prices[0]], taker, prices[0], symbol, nextId);
      FillLevelPositive(book[prices[0]], taker, prices[0], symbol, nextId);
      SweepPositive(SetLevel(book, prices[0], f.level), prices[1..], f.taker, symbol, f.nextId);
      SweepUnfold(book, prices, taker, symbol, nextId);
    }
  }

  /** The trades of a walk are numbered consecutively from the next trade number. */
  lemma {:induction false} SweepNumbers(book: Book, prices: seq<Option<real>>, taker: Order, symbol: string,
                                        nextId: nat)
    ensures NumberedFrom(Sweep(book, prices, taker, symbol, nextId).trades, nextId)
  {
    if prices != [] && taker.remaining > 0.0 && Crosses(taker, prices[0]) {
      var level := if prices[0] in book then book[prices[0]] else [];
      var f := FillLevel(level, taker, prices[0], symbol, nextId);
      var rest := Sweep(SetLevel(book, prices[0], f.level), prices[1..], f.taker, symbol, f.nextId);
      FillLevelNumbers(level, taker, prices[0], symbol, nextId);
      SweepNumbers(SetLevel(book, prices[0], f.level), prices[1..], f.taker, symbol, f.nextId);
      SweepUnfold(book, prices, taker, symbol, nextId);
      NumberedAppend(f.trades, rest.trades, nextId);
    }
  }

  /** Along the sorting order a taker that crosses a level also crosses every level before it. */
  lemma CrossesTowardsBest(taker: Order, a: Option<real>, b: Option<real>)
    requires if taker.side == Sell then Below(b, a) else Below(a, b)
    requires Crosses(taker, b)
    ensures Crosses(taker, a)
  {
  }

  /** A walk removes levels but never adds one. */
  lemma {:induction false} SweepKeys(book: Book, prices: seq<Option<real>>, taker: Order, symbol: string, nextId: nat)
    ensures Sweep(book, prices, taker, symbol, nextId).book.Keys <= book.Keys
  {
    if prices != [] && taker.remaining > 0.0 && Crosses(taker, prices[0]) {
      var level := if prices[0] in book then book[prices[0]] else [];
      var f := FillLevel(level, taker, prices[0], symbol, nextId);
      var b := SetLevel(book, prices[0], f.level);
      assert b.Keys <= book.Keys;
      SweepKeys(b, prices[1..], f.taker, symbol, f.nextId);
    }
  }

  /** Price priority, completeness: a walk over levels in sorting order that ends with quantity left has used
      up every level it crosses. */
  lemma {:induction false} SweepClearsCrossing(book: Book, prices: seq<Option<real>>, taker: Order, symbol: string,
                                               nextId: nat)
    requires GoodBook(book, Opposite(taker.side)) && Levels(book, prices) && Ordered(prices, taker.side == Sell)
    ensures var s := Sweep(book, prices, taker, symbol, nextId);
            s.taker.remaining > 0.0 ==>
              forall i :: 0 <= i < |prices| && prices[i] in s.book ==> !Crosses(taker, prices[i])
  {
    var s := Sweep(book, prices, taker, symbol, nextId);
    if prices == [] || taker.remaining <= 0.0 {
    } else if !Crosses(taker, prices[0]) {
      forall i | 0 < i < |prices| ensures !Crosses(taker, prices[i]) {
        if Crosses(taker, prices[i]) {
          CrossesTowardsBest(taker, prices[0], prices[i]);
        }
      }
    } else {
      var p := prices[0];
      var tail := prices[1..];
      WalkStep(book, prices, taker, symbol, nextId);
      var f := FillLevel(book[p], taker, p, symbol, nextId);
      var b := SetLevel(book, p, f.level);
      assert Ordered(tail, taker.side == Sell) by {
        forall i, j | 0 <= i < j < |tail|
          ensures if taker.side == Sell then Below(tail[j], tail[i]) else Below(tail[i], tail[j])
        {
          assert tail[i] == prices[i + 1] && tail[j] == prices[j + 1];
        }
      }
      SweepClearsCrossing(b, tail, f.taker, symbol, f.nextId);
      SweepUnfold(book, prices, taker, symbol, nextId);
      var rest := Sweep(b, tail, f.taker, symbol, f.nextId);
      if s.taker.remaining > 0.0 {
        assert rest.taker.remaining > 0.0;
        assert f.taker.remaining > 0.0;
        FillLevelLeavesLevel(book[p], taker, p, symbol, nextId);
        assert p !in b;
        SweepKeys(b, tail, f.taker, symbol, f.nextId);
        forall i | 0 < i < |prices| && prices[i] in s.book ensures !Crosses(taker, prices[i]) {
          assert prices[i] == tail[i - 1];
          SameCrossing(f.taker, taker, prices[i]);
        }
      }
    }
  }

  /** Price priority, order: the first trade of a walk over a good side is at the first level. */
  lemma SweepStartsFirst(book: Book, prices: seq<Option<real>>, taker: Order, symbol: string, nextId: nat)
    requires GoodBook(book, Opposite(taker.side)) && Levels(book, prices)
    ensures var s := Sweep(book, prices, taker, symbol, nextId);
            s.trades != [] ==> s.trades[0].price == prices[0]
  {
    if prices != [] && taker.remaining > 0.0 && Crosses(taker, prices[0]) {
      var f := FillLevel(book[prices[0]], taker, prices[0], symbol, nextId);
      FillLevelTaker(book[prices[0]], taker, prices[0], symbol, nextId);
      assert f.trades != [] && f.trades[0] in f.trades;
      SweepUnfold(book, prices, taker, symbol, nextId);
    }
  }

  /** What a walk leaves: a good side, a taker changed only in its quantities and status, trades only at
      crossing levels it walked, for positive quantities whose total is what the taker lost. */
  lemma SweepFacts(book: Book, prices: seq<Option<real>>, taker: Order, symbol: string, nextId: nat)
    requires GoodBook(book, Opposite(taker.side)) && Levels(book, prices)
    ensures var s := Sweep(book, prices, taker, symbol, nextId);
            && GoodBook(s.book, Opposite(taker.side))
            && s.taker == taker.(filled := s.taker.filled, remaining := s.taker.remaining, status := s.taker.status)
            && s.taker.remaining == taker.remaining - TotalQuantity(s.trades)
            && s.taker.filled == taker.filled + TotalQuantity(s.trades)
            && (taker.remaining >= 0.0 ==> s.taker.remaining >= 0.0)
            && (forall t :: t in s.trades ==> t.price in prices && Crosses(taker, t.price) && t.quantity > 0.0)
            && (s.trades != [] ==> s.trades[0].price == prices[0])
            && (Ordered(prices, taker.side == Sell) && s.taker.remaining > 0.0 ==>
                  forall i :: 0 <= i < |prices| && prices[i] in s.book ==> !Crosses(taker, prices[i]))
  {
    SweepStartsFirst(book, prices, taker, symbol, nextId);
    if Ordered(prices, taker.side == Sell) {
      SweepClearsCrossing(book, prices, taker, symbol, nextId);
    }
    SweepKeepsBook(book, prices, taker, symbol, nextId);
    SweepTaker(book, prices, taker, symbol, nextId);
    SweepTrades(book, prices, taker, symbol, nextId);
    SweepPositive(book, prices, taker, symbol, nextId);
  }

  /** Trade prices that never move back towards the best price: equal or further on, lower for `desc`. */
  ghost predicate WalksAway(trades: seq<Trade>, desc: bool) {
    forall i, j :: 0 <= i < j < |trades| ==>
      trades[i].price == trades[j].price ||
      if desc then Below(trades[j].price, trades[i].price) else Below(trades[i].price, trades[j].price)
  }

  lemma WalksAwayConcat(a: seq<Trade>, b: seq<Trade>, p: Option<real>, desc: bool)
    requires forall t :: t in a ==> t.price == p
    requires forall t :: t in b ==> if desc then Below(t.price, p) else Below(p, t.price)
    requires WalksAway(b, desc)
    ensures WalksAway(a + b, desc)
  {
    var c := a + b;
    forall i, j | 0 <= i < j < |c|
      ensures c[i].price == c[j].price || if desc then Below(c[j].price, c[i].price) else Below(c[i].price, c[j].price)
    {
      if j < |a| {
        assert c[i] in a && c[j] in a;
      } else if i < |a| {
        assert c[i] in a && c[j] == b[j - |a|] && c[j] in b;
      } else {
        assert c[i] == b[i - |a|] && c[j] == b[j - |a|];
      }
    }
  }

  /** Along a walk over ordered levels the trade prices only move away from the best price: a buyer's
      trades climb the asks, a seller's descend the bids. */
  lemma {:induction false} SweepWalksInOrder(book: Book, prices: seq<Option<real>>, taker: Order, symbol: string,
                                             nextId: nat, desc: bool)
    requires Ordered(prices, desc)
    ensures WalksAway(Sweep(book, prices, taker, symbol, nextId).trades, desc)
  {
    if prices != [] && taker.remaining > 0.0 && Crosses(taker, prices[0]) {
      var level := if prices[0] in book then book[prices[0]] else [];
      var f := FillLevel(level, taker, prices[0], symbol, nextId);
      FillLevelTaker(level, taker, prices[0], symbol, nextId);
      var b := SetLevel(book, prices[0], f.level);
      var tail := prices[1..];
      assert Ordered(tail, desc) by {
        forall i, j | 0 <= i < j < |tail| ensures if desc then Below(tail[j], tail[i]) else Below(tail[i], tail[j]) {
          assert tail[i] == prices[i + 1] && tail[j] == prices[j + 1];
        }
      }
      assert forall x :: x in tail ==> if desc then Below(x, prices[0]) else Below(prices[0], x) by {
        forall x | x in tail ensures if desc then Below(x, prices[0]) else Below(prices[0], x) {
          var k :| 0 <= k < |tail| && tail[k] == x;
          assert x == prices[k + 1];
        }
      }
      SweepWalksInOrder(b, tail, f.taker, symbol, f.nextId, desc);
      SweepTrades(b, tail, f.taker, symbol, f.nextId);
      SweepUnfold(book, prices, taker, symbol, nextId);
      WalksAwayConcat(f.trades, Sweep(b, tail, f.taker, symbol, f.nextId).trades, prices[0], desc);
    }
  }

  // ---------------------------------------------------------------------------------------------
  // Processing an incoming order

  datatype Processed = Processed(bids: Book, asks: Book, trades: seq<Trade>, taker: Order, nextId: nat)

  /** The books after a walk: the opposite side as the walk left it, and the taker's remainder, if any, at
      the back of its own side's level at its price. */
  function Settled(bids: Book, asks: Book, side: Side, s: Swept): (p: Processed)
    ensures p.trades == s.trades && p.taker == s.taker && p.nextId == s.nextId
    ensures OppositeBook(p.bids, p.asks, side) == s.book
    ensures var own := OppositeBook(asks, bids, side);
            OppositeBook(p.asks, p.bids, side) ==
              (if s.taker.remaining > 0.0 then Appended(own, s.taker.price, s.taker) else own)
  {
    var own := if side == Buy then bids else asks;
    var own' := if s.taker.remaining > 0.0 then Appended(own, s.taker.price, s.taker) else own;
    if side == Buy then Processed(own', s.book, s.trades, s.taker, s.nextId)
    else Processed(s.book, own', s.trades, s.taker, s.nextId)
  }

  /** The limit order can trade against the best opposite price; comparing with an absent price raises. */
  function CanMatch(order: Order, best: Option<real>): Result<bool> {
    if best.None? || order.price.None? then Err(TypeError)
    else if order.side == Buy then Ok(order.price.value >= best.value)
    else Ok(order.price.value <= best.value)
  }

  /** The side an order of `side` trades against. */
  function OppositeBook(bids: Book, asks: Book, side: Side): Book {
    if side == Buy then asks else bids
  }

  /** The walk of an order over every opposite level, best price first. */
  function Walk(bids: Book, asks: Book, order: Order, symbol: string, nextId: nat): Result<Swept> {
    var opp := OppositeBook(bids, asks, order.side);
    var prices := SortKeys(opp.Keys, order.side == Sell);
    if prices.Err? then Err(prices.error) else Ok(Sweep(opp, prices.value, order, symbol, nextId))
  }

  /** An order that walks the opposite levels and then rests what is left of it. */
  function Matched(bids: Book, asks: Book, order: Order, symbol: string, nextId: nat): Result<Processed> {
    var w := Walk(bids, asks, order, symbol, nextId);
    if w.Err? then Err(w.error) else Ok(Settled(bids, asks, order.side, w.value))
  }

  /** Whether a limit order reaches the best opposite price; never against an empty side. */
  function LimitCrosses(bids: Book, asks: Book, order: Order): Result<bool> {
    var opp := OppositeBook(bids, asks, order.side);
    if opp == map[] then Ok(false)
    else
      var best := BestPrice(opp.Keys, order.side == Sell);
      if best.Err? then Err(best.error) else CanMatch(order, best.value)
  }

  /** A limit order walks the opposite levels only when it reaches the best price; otherwise it rests whole. */
  function ProcessLimit(bids: Book, asks: Book, order: Order, symbol: string, nextId: nat): Result<Processed> {
    var can := LimitCrosses(bids, asks, order);
    if can.Err? then Err(can.error)
    else if can.value then Matched(bids, asks, order, symbol, nextId)
    else Ok(Settled(bids, asks, order.side, Swept(OppositeBook(bids, asks, order.side), order, [], nextId)))
  }

  /** An incoming order: a market order walks every opposite level; any other order is a limit order. */
  function Process(bids: Book, asks: Book, order: Order, symbol: string, nextId: nat): Result<Processed> {
    if order.orderType == Market then Matched(bids, asks, order, symbol, nextId)
    else ProcessLimit(bids, asks, order, symbol, nextId)
  }

  /** A limit order that reaches the best price can always walk: its side sorts. */
  lemma CrossingLimitWalks(bids: Book, asks: Book, order: Order, symbol: string, nextId: nat)
    requires LimitCrosses(bids, asks, order) == Ok(true)
    ensures Walk(bids, asks, order, symbol, nextId).Ok?
  {
  }

  /** What a walk over the sorted opposite side leaves, as `SweepFacts` states it. */
  lemma WalkFacts(bids: Book, asks: Book, order: Order, symbol: string, nextId: nat)
    requires GoodBook(OppositeBook(bids, asks, order.side), Opposite(order.side))
    requires Walk(bids, asks, order, symbol, nextId).Ok?
    ensures var opp := OppositeBook(bids, asks, order.side);
            var s := Walk(bids, asks, order, symbol, nextId).value;
            && GoodBook(s.book, Opposite(order.side))
            && s.taker == order.(filled := s.taker.filled, remaining := s.taker.remaining, status := s.taker.status)
            && s.taker.remaining == order.remaining - TotalQuantity(s.trades)
            && s.taker.filled == order.filled + TotalQuantity(s.trades)
            && (order.remaining >= 0.0 ==> s.taker.remaining >= 0.0)
            && forall t :: t in s.trades ==> Crosses(order, t.price) && t.quantity > 0.0
  {
    var opp := OppositeBook(bids, asks, order.side);
    SortedLevels(opp, order.side == Sell);
    SweepFacts(opp, SortKeys(opp.Keys, order.side == Sell).value, order, symbol, nextId);
  }

  /** The sorted prices of a side are levels of it, each once. */
  lemma SortedLevels(opp: Book, desc: bool)
    requires SortKeys(opp.Keys, desc).Ok?
    ensures Levels(opp, SortKeys(opp.Keys, desc).value)
  {
    var sorted := SortKeys(opp.Keys, desc).value;
    forall i, j | 0 <= i < j < |sorted| ensures sorted[i] != sorted[j] {
      assert if desc then Below(sorted[j], sorted[i]) else Below(sorted[i], sorted[j]);
    }
  }

  /** Price priority of a walk over the sorted opposite side: its first trade is at the best price, and a
      taker left with quantity has used up every level it crosses. */
  lemma WalkPriority(bids: Book, asks: Book, order: Order, symbol: string, nextId: nat)
    requires GoodBook(OppositeBook(bids, asks, order.side), Opposite(order.side))
    requires Walk(bids, asks, order, symbol, nextId).Ok?
    ensures var opp := OppositeBook(bids, asks, order.side);
            var s := Walk(bids, asks, order, symbol, nextId).value;
            && (s.trades != [] ==> opp != map[] && BestPrice(opp.Keys, order.side == Sell) == Ok(s.trades[0].price))
            && (s.taker.remaining > 0.0 ==> forall q :: q in s.book ==> !Crosses(order, q))
  {
    var opp := OppositeBook(bids, asks, order.side);
    var desc := order.side == Sell;
    var sorted := SortKeys(opp.Keys, desc).value;
    SortedLevels(opp, desc);
    SweepStartsFirst(opp, sorted, order, symbol, nextId);
    SweepClearsCrossing(opp, sorted, order, symbol, nextId);
    var s := Sweep(opp, sorted, order, symbol, nextId);
    if s.trades != [] {
      assert opp != map[];
      BestIsFirstSorted(opp.Keys, desc);
    }
    if s.taker.remaining > 0.0 {
      SweepKeys(opp, sorted, order, symbol, nextId);
      forall q | q in s.book ensures !Crosses(order, q) {
        assert q in sorted;
        var i :| 0 <= i < |sorted| && sorted[i] == q;
      }
    }
  }

  /** Resting the remainder keeps both sides good. */
  lemma SettledGood(bids: Book, asks: Book, order: Order, s: Swept)
    requires GoodBook(bids, Buy) && GoodBook(asks, Sell)
    requires FreshIn(bids, order.id) && FreshIn(asks, order.id)
    requires GoodBook(s.book, Opposite(order.side)) && s.taker.side == order.side && s.taker.id == order.id
    ensures GoodBook(Settled(bids, asks, order.side, s).bids, Buy) && GoodBook(Settled(bids, asks, order.side, s).asks, Sell)
  {
    if s.taker.remaining > 0.0 {
      AppendedGood(if order.side == Buy then bids else asks, order.side, s.taker);
    }
  }

  /** The books stay well formed, the taker keeps its identity, its filled part grows by exactly what it
      traded, and each trade is for a positive quantity at a level the taker crosses; a limit buy never pays
      more than its price and a limit sell never receives less. */
  lemma ProcessFacts(bids: Book, asks: Book, order: Order, symbol: string, nextId: nat)
    requires GoodBook(bids, Buy) && GoodBook(asks, Sell) && FreshIn(bids, order.id) && FreshIn(asks, order.id)
    requires Process(bids, asks, order, symbol, nextId).Ok?
    ensures var p := Process(bids, asks, order, symbol, nextId).value;
            && GoodBook(p.bids, Buy) && GoodBook(p.asks, Sell)
            && p.taker == order.(filled := p.taker.filled, remaining := p.taker.remaining, status := p.taker.status)
            && p.taker.filled == order.filled + TotalQuantity(p.trades)
            && p.taker.remaining == order.remaining - TotalQuantity(p.trades)
            && (Balanced(order) ==> Balanced(p.taker))
            && (order.remaining >= 0.0 ==> p.taker.remaining >= 0.0)
            && forall t :: t in p.trades ==>
                 && t.quantity > 0.0 && Crosses(order, t.price)
                 && (order.orderType != Market && order.side == Buy ==> t.price.value <= order.price.value)
                 && (order.orderType != Market && order.side == Sell ==> t.price.value >= order.price.value)
  {
    var w := Walk(bids, asks, order, symbol, nextId);
    var walked := order.orderType == Market || LimitCrosses(bids, asks, order) == Ok(true);
    if walked {
      assert Process(bids, asks, order, symbol, nextId) == Ok(Settled(bids, asks, order.side, w.value));
      WalkFacts(bids, asks, order, symbol, nextId);
      SettledGood(bids, asks, order, w.value);
    } else {
      var idle := Swept(OppositeBook(bids, asks, order.side), order, [], nextId);
      assert Process(bids, asks, order, symbol, nextId) == Ok(Settled(bids, asks, order.side, idle));
      SettledGood(bids, asks, order, idle);
    }
  }

  /** Price-time priority of an incoming order: its first trade is at the best opposite price, and an order
      left with quantity has used up every opposite level it crosses, so a market order with a remainder
      leaves the opposite side empty. Within a level the makers are met oldest first (`FillLevelInOrder`). */
  lemma ProcessPriority(bids: Book, asks: Book, order: Order, symbol: string, nextId: nat)
    requires GoodBook(bids, Buy) && GoodBook(asks, Sell)
    requires Process(bids, asks, order, symbol, nextId).Ok?
    ensures var opp := OppositeBook(bids, asks, order.side);
            var p := Process(bids, asks, order, symbol, nextId).value;
            var opp' := OppositeBook(p.bids, p.asks, order.side);
            && (p.trades != [] ==> opp != map[] && BestPrice(opp.Keys, order.side == Sell) == Ok(p.trades[0].price))
            && (p.taker.remaining > 0.0 ==> forall q :: q in opp' ==> !Crosses(order, q))
            && (order.orderType == Market && p.taker.remaining > 0.0 ==> opp' == map[])
  {
    var opp := OppositeBook(bids, asks, order.side);
    if order.orderType == Market || LimitCrosses(bids, asks, order) == Ok(true) {
      var w := Walk(bids, asks, order, symbol, nextId);
      assert Process(bids, asks, order, symbol, nextId) == Ok(Settled(bids, asks, order.side, w.value));
      WalkPriority(bids, asks, order, symbol, nextId);
    } else {
      var p := Settled(bids, asks, order.side, Swept(opp, order, [], nextId));
      assert Process(bids, asks, order, symbol, nextId) == Ok(p);
      RestsUncrossed(bids, asks, order);
    }
  }

  /** A limit order that does not reach the best opposite price crosses no opposite level. */
  lemma RestsUncrossed(bids: Book, asks: Book, order: Order)
    requires order.orderType != Market && LimitCrosses(bids, asks, order) == Ok(false)
    ensures forall q :: q in OppositeBook(bids, asks, order.side) ==> !Crosses(order, q)
  {
    var opp := OppositeBook(bids, asks, order.side);
    if opp != map[] {
      var best := BestPrice(opp.Keys, order.side == Sell).value;
      forall q | q in opp ensures !Crosses(order, q) {
        assert q == best || if order.side == Sell then Below(q, best) else Below(best, q);
      }
    }
  }

  /** Every order resting in `book` carries an id of `ids`. */
  ghost predicate IdsWithin(book: Book, ids: set<nat>) {
    forall p, o :: p in book && o in book[p] ==> o.id in ids
  }

  /** A walk leaves no order on the side it walks that was not there before. */
  lemma {:induction false} SweepIdsWithin(book: Book, prices: seq<Option<real>>, taker: Order, symbol: string,
                                          nextId: nat, ids: set<nat>)
    requires GoodBook(book, Opposite(taker.side)) && Levels(book, prices) && IdsWithin(book, ids)
    ensures IdsWithin(Sweep(book, prices, taker, symbol, nextId).book, ids)
  {
    if prices != [] && taker.remaining > 0.0 && Crosses(taker, prices[0]) {
      var p := prices[0];
      WalkStep(book, prices, taker, symbol, nextId);
      var f := FillLevel(book[p], taker, p, symbol, nextId);
      FillLevelLeavesLevel(book[p], taker, p, symbol, nextId);
      var b := SetLevel(book, p, f.level);
      assert IdsWithin(b, ids) by {
        forall q, o: Order | q in b && o in b[q] ensures o.id in ids {
          if q == p {
            assert o.id in IdsOf(f.level);
          }
        }
      }
      SweepIdsWithin(b, prices[1..], f.taker, symbol, f.nextId, ids);
    }
  }

  /** A walk over the opposite side leaves none of its orders but those that were there, and keeps the
      taker's id. */
  lemma WalkIdsWithin(bids: Book, asks: Book, order: Order, symbol: string, nextId: nat, ids: set<nat>)
    requires GoodBook(OppositeBook(bids, asks, order.side), Opposite(order.side))
    requires IdsWithin(OppositeBook(bids, asks, order.side), ids) && Walk(bids, asks, order, symbol, nextId).Ok?
    ensures IdsWithin(Walk(bids, asks, order, symbol, nextId).value.book, ids)
    ensures Walk(bids, asks, order, symbol, nextId).value.taker.id == order.id
  {
    var opp := OppositeBook(bids, asks, order.side);
    WalkFacts(bids, asks, order, symbol, nextId);
    var sorted := SortKeys(opp.Keys, order.side == Sell).value;
    assert Levels(opp, sorted) by {
      forall i, j | 0 <= i < j < |sorted| ensures sorted[i] != sorted[j] {
        assert if order.side == Sell then Below(sorted[j], sorted[i]) else Below(sorted[i], sorted[j]);
      }
    }
    SweepIdsWithin(opp, sorted, order, symbol, nextId, ids);
  }

  lemma SettledIdsWithin(bids: Book, asks: Book, side: Side, s: Swept, ids: set<nat>)
    requires IdsWithin(bids, ids) && IdsWithin(asks, ids) && IdsWithin(s.book, ids) && s.taker.id in ids
    ensures IdsWithin(Settled(bids, asks, side, s).bids, ids) && IdsWithin(Settled(bids, asks, side, s).asks, ids)
  {
  }

  /** After an incoming order every resting order is one that rested before or the order itself. */
  lemma ProcessIdsWithin(bids: Book, asks: Book, order: Order, symbol: string, nextId: nat, ids: set<nat>)
    requires GoodBook(bids, Buy) && GoodBook(asks, Sell)
    requires IdsWithin(bids, ids) && IdsWithin(asks, ids) && order.id in ids
    requires Process(bids, asks, order, symbol, nextId).Ok?
    ensures var p := Process(bids, asks, order, symbol, nextId).value;
            IdsWithin(p.bids, ids) && IdsWithin(p.asks, ids)
  {
    var opp := OppositeBook(bids, asks, order.side);
    if order.orderType == Market || LimitCrosses(bids, asks, order) == Ok(true) {
      var w := Walk(bids, asks, order, symbol, nextId);
      WalkIdsWithin(bids, asks, order, symbol, nextId, ids);
      SettledIdsWithin(bids, asks, order.side, w.value, ids);
    } else {
      SettledIdsWithin(bids, asks, order.side, Swept(opp, order, [], nextId), ids);
    }
  }

  /** The trades of an incoming order walk away from the best price: a buy's prices do not fall and a
      sell's do not rise. */
  lemma ProcessWalksInOrder(bids: Book, asks: Book, order: Order, symbol: string, nextId: nat)
    requires Process(bids, asks, order, symbol, nextId).Ok?
    ensures WalksAway(Process(bids, asks, order, symbol, nextId).value.trades, order.side == Sell)
  {
    ProcessTrades(bids, asks, order, symbol, nextId);
    if order.orderType == Market || LimitCrosses(bids, asks, order) == Ok(true) {
      var opp := OppositeBook(bids, asks, order.side);
      SweepWalksInOrder(opp, SortKeys(opp.Keys, order.side == Sell).value, order, symbol, nextId, order.side == Sell);
    }
  }

  /** The trades of an incoming order are those of its walk when it walks, and none otherwise. */
  lemma ProcessTrades(bids: Book, asks: Book, order: Order, symbol: string, nextId: nat)
    requires Process(bids, asks, order, symbol, nextId).Ok?
    ensures var p := Process(bids, asks, order, symbol, nextId).value;
            if order.orderType == Market || LimitCrosses(bids, asks, order) == Ok(true) then
              Walk(bids, asks, order, symbol, nextId).Ok? && p.trades == Walk(bids, asks, order, symbol, nextId).value.trades
            else p.trades == []
  {
  }

  /** A limit order that does not reach the best opposite price trades nothing and rests in full at its
      price. */
  lemma NonCrossingLimitRests(bids: Book, asks: Book, order: Order, symbol: string, nextId: nat)
    requires order.orderType != Market && order.price.Some? && order.remaining > 0.0
    requires var opp := if order.side == Buy then asks else bids;
             opp == map[] || (None !in opp && CanMatch(order, BestPrice(opp.Keys, order.side == Sell).value) == Ok(false))
    ensures var p := Process(bids, asks, order, symbol, nextId);
            && p.Ok? && p.value.trades == [] && p.value.taker == order
            && (order.side == Buy ==> p.value.bids == Appended(bids, order.price, order) && p.value.asks == asks)
            && (order.side == Sell ==> p.value.asks == Appended(asks, order.price, order) && p.value.bids == bids)
  {
  }

  /** A market order meeting an empty opposite side rests in full at the absent price. */
  lemma MarketRemainderRestsAtNone(bids: Book, asks: Book, order: Order, symbol: string, nextId: nat)
    requires order.orderType == Market && order.price == None && order.remaining > 0.0
    requires (if order.side == Buy then asks else bids) == map[]
    ensures var p := Process(bids, asks, order, symbol, nextId);
            && p.Ok? && p.value.trades == []
            && (order.side == Buy ==> None in p.value.bids && p.value.bids[None][|p.value.bids[None]| - 1] == order)
            && (order.side == Sell ==> None in p.value.asks && p.value.asks[None][|p.value.asks[None]| - 1] == order)
  {
    var opp := if order.side == Buy then asks else bids;
    assert opp.Keys == {};
    assert SortKeys(opp.Keys, order.side == Sell) == Ok([]);
  }

  // ---------------------------------------------------------------------------------------------
  // The depth snapshot

  /** The total remaining quantity of a level. */
  function LevelQuantity(level: seq<Order>): real {
    if level == [] then 0.0 else level[0].remaining + LevelQuantity(level[1..])
  }

  lemma {:induction false} LevelQuantityPositive(level: seq<Order>)
    requires level != [] && forall i :: 0 <= i < |level| ==> level[i].remaining > 0.0
    ensures LevelQuantity(level) > 0.0
  {
    if |level| > 1 {
      assert forall i :: 0 <= i < |level[1..]| ==> level[1..][i] == level[i + 1];
      LevelQuantityPositive(level[1..]);
    }
  }

  /** Each price paired with its level's total remaining quantity. */
  function Depth(book: Book, prices: seq<Option<real>>): (r: seq<(Option<real>, real)>)
    requires forall i :: 0 <= i < |prices| ==> prices[i] in book
    ensures |r| == |prices| && forall i :: 0 <= i < |r| ==> r[i] == (prices[i], LevelQuantity(book[prices[i]]))
  {
    if prices == [] then [] else [(prices[0], LevelQuantity(book[prices[0]]))] + Depth(book, prices[1..])
  }

  datatype Snapshot = Snapshot(bids: seq<(Option<real>, real)>, asks: seq<(Option<real>, real)>)

  /** Depth entries strictly ordered by price, highest first when `desc`. */
  ghost predicate DepthOrdered(d: seq<(Option<real>, real)>, desc: bool) {
    forall i, j :: 0 <= i < j < |d| ==> if desc then Below(d[j].0, d[i].0) else Below(d[i].0, d[j].0)
  }

  /** Each entry is a level of `book` with that level's total remaining quantity. */
  ghost predicate DepthOf(d: seq<(Option<real>, real)>, book: Book) {
    forall i :: 0 <= i < |d| ==> d[i].0 in book && d[i].1 == LevelQuantity(book[d[i].0])
  }

  lemma DepthFacts(book: Book, prices: seq<Option<real>>, desc: bool)
    requires (forall i :: 0 <= i < |prices| ==> prices[i] in book) && Ordered(prices, desc)
    ensures DepthOrdered(Depth(book, prices), desc) && DepthOf(Depth(book, prices), book)
  {
  }

  lemma TakeDepth(d: seq<(Option<real>, real)>, n: int, book: Book, desc: bool)
    requires DepthOrdered(d, desc) && DepthOf(d, book)
    ensures DepthOrdered(PyTake(d, n), desc) && DepthOf(PyTake(d, n), book)
  {
    var r := PyTake(d, n);
    assert forall i :: 0 <= i < |r| ==> r[i] == d[i];
  }

  /** The first `depth` levels of one side in sorting order, each with its total remaining quantity. */
  function SideDepth(book: Book, desc: bool, depth: int): (r: Result<seq<(Option<real>, real)>>)
    ensures r.Err? <==> None in book && |book| > 1
    ensures r.Ok? ==> && |r.value| <= |book| && (depth >= 0 ==> |r.value| == if depth < |book| then depth else |book|)
                      && DepthOrdered(r.value, desc) && DepthOf(r.value, book)
  {
    var prices := SortKeys(book.Keys, desc);
    if prices.Err? then Err(prices.error)
    else
      var d := Depth(book, prices.value);
      DepthFacts(book, prices.value, desc);
      TakeDepth(d, depth, book, desc);
      Ok(PyTake(d, depth))
  }

  /** The first `depth` levels of each side, bids highest first and asks lowest first, each with its total
      remaining quantity; a side holding `None` besides another price cannot be sorted. */
  function SnapshotOf(bids: Book, asks: Book, depth: int): (r: Result<Snapshot>)
    ensures r.Err? <==> (None in bids && |bids| > 1) || (None in asks && |asks| > 1)
    ensures r.Ok? ==>
              && |r.value.bids| <= |bids| && (depth >= 0 ==> |r.value.bids| == if depth < |bids| then depth else |bids|)
              && |r.value.asks| <= |asks| && (depth >= 0 ==> |r.value.asks| == if depth < |asks| then depth else |asks|)
              && DepthOrdered(r.value.bids, true) && DepthOf(r.value.bids, bids)
              && DepthOrdered(r.value.asks, false) && DepthOf(r.value.asks, asks)
  {
    var b := SideDepth(bids, true, depth);
    if b.Err? then Err(b.error)
    else
      var a := SideDepth(asks, false, depth);
      if a.Err? then Err(a.error)
      else Ok(Snapshot(b.value, a.value))
  }

  /** On well-formed books every listed quantity is positive. */
  lemma SnapshotQuantitiesPositive(bids: Book, asks: Book, depth: int)
    requires GoodBook(bids, Buy) && GoodBook(asks, Sell) && SnapshotOf(bids, asks, depth).Ok?
    ensures var s := SnapshotOf(bids, asks, depth).value;
            && (forall i :: 0 <= i < |s.bids| ==> s.bids[i].1 > 0.0)
            && (forall i :: 0 <= i < |s.asks| ==> s.asks[i].1 > 0.0)
  {
    var s := SnapshotOf(bids, asks, depth).value;
    forall i | 0 <= i < |s.bids| ensures s.bids[i].1 > 0.0 {
      LevelQuantityPositive(bids[s.bids[i].0]);
    }
    forall i | 0 <= i < |s.asks| ensures s.asks[i].1 > 0.0 {
      LevelQuantityPositive(asks[s.asks[i].0]);
    }
  }

  // ---------------------------------------------------------------------------------------------
  // The engine

  /** The engine's results and new state agree with `p`, the outcome of processing `order` from the state
      `bids0`, `asks0`, `nextId0`: an error leaves everything as it was. */
  ghost predicate Reflects(p: Result<Processed>, order: Order, bids0: Book, asks0: Book, nextId0: nat,
                           r: Result<seq<Trade>>, taker: Order, bids: Book, asks: Book, nextId: nat) {
    && (p.Err? ==> r == Err(p.error) && taker == order && bids == bids0 && asks == asks0 && nextId == nextId0)
    && (p.Ok? ==> r == Ok(p.value.trades) && taker == p.value.taker && bids == p.value.bids && asks == p.value.asks &&
                  nextId == p.value.nextId)
  }

  /** A walk joined after the trades `earlier`. */
  function Joined(s: Swept, earlier: seq<Trade>): Swept {
    Swept(s.book, s.taker, earlier + s.trades, s.nextId)
  }

  /** One level of a walk, seen from the loop over the levels. */
  lemma SweepStep(book: Book, prices: seq<Option<real>>, i: nat, taker: Order, symbol: string, nextId: nat,
                  earlier: seq<Trade>)
    requires i < |prices| && prices[i] in book && taker.remaining > 0.0 && Crosses(taker, prices[i])
    ensures var f := FillLevel(book[prices[i]], taker, prices[i], symbol, nextId);
            Joined(Sweep(book, prices[i..], taker, symbol, nextId), earlier) ==
              Joined(Sweep(SetLevel(book, prices[i], f.level), prices[i + 1..], f.taker, symbol, f.nextId), earlier + f.trades)
  {
    assert prices[i..][1..] == prices[i + 1..];
    var f := FillLevel(book[prices[i]], taker, prices[i], symbol, nextId);
    var rest := Sweep(SetLevel(book, prices[i], f.level), prices[i + 1..], f.taker, symbol, f.nextId);
    assert earlier + (f.trades + rest.trades) == (earlier + f.trades) + rest.trades;
  }

  /** One level of a walk, with everything the loop over the levels keeps: the level is there and well formed,
      filling it leaves a well-formed side whose remaining levels follow, and the walk goes on from there. */
  lemma SweepLevelNext(book: Book, prices: seq<Option<real>>, i: nat, taker: Order, symbol: string, nextId: nat,
                       earlier: seq<Trade>, side: Side)
    requires side == Opposite(taker.side) && GoodBook(book, side)
    requires i < |prices| && Levels(book, prices[i..]) && taker.remaining > 0.0 && Crosses(taker, prices[i])
    ensures prices[i] in book && book[prices[i]] != [] && GoodLevel(book[prices[i]], prices[i], side)
    ensures var f := FillLevel(book[prices[i]], taker, prices[i], symbol, nextId);
            && GoodBook(SetLevel(book, prices[i], f.level), side)
            && Levels(SetLevel(book, prices[i], f.level), prices[i + 1..])
            && f.taker.side == taker.side
            && Joined(Sweep(book, prices[i..], taker, symbol, nextId), earlier) ==
                 Joined(Sweep(SetLevel(book, prices[i], f.level), prices[i + 1..], f.taker, symbol, f.nextId), earlier + f.trades)
  {
    assert prices[i..][0] == prices[i];
    var f := FillLevel(book[prices[i]], taker, prices[i], symbol, nextId);
    FillLevelLeavesLevel(book[prices[i]], taker, prices[i], symbol, nextId);
    FillLevelTaker(book[prices[i]], taker, prices[i], symbol, nextId);
    SetLevelGood(book, prices[i], f.level, side);
    LevelsTail(book, prices[i..], f.level);
    assert prices[i..][1..] == prices[i + 1..];
    SweepStep(book, prices, i, taker, symbol, nextId, earlier);
  }

  /** The taker meets the resting orders of one level in time order, as `FillLevel` describes: each fill
      makes a trade numbered from `nextId`, and the loop stops once the taker is complete. */
  method FillOrders(restingOrders: seq<Order>, taker: Order, price: Option<real>, symbol: string, nextId: nat)
    returns (taker': Order, level: seq<Order>, trades: seq<Trade>, tradeId: nat)
    ensures LevelFill(taker', level, trades, tradeId) == FillLevel(restingOrders, taker, price, symbol, nextId)
  {
    ghost var whole := FillLevel(restingOrders, taker, price, symbol, nextId);
    var survivors: seq<Order> := [];
    taker', trades, tradeId := taker, [], nextId;
    var j := 0;
    assert restingOrders[j..] == restingOrders && [] + whole.level == whole.level && [] + whole.trades == whole.trades;
    while j < |restingOrders|
      invariant 0 <= j <= |restingOrders|
      invariant survivors == [] || taker'.remaining <= 0.0
      invariant whole == Unfilled(FillLevel(restingOrders[j..], taker', price, symbol, tradeId), survivors, trades)
    {
      if taker'.remaining <= 0.0 {
        break;
      }
      var restingOrder := restingOrders[j];
      var tradeQuantity := Min(taker'.remaining, restingOrder.remaining);
      FillOrdersNext(restingOrders, j, taker', price, symbol, tradeId, trades, whole);
      var trade := CreateTrade(symbol, taker', restingOrder, tradeQuantity, price, tradeId);
      trades := trades + [trade];
      tradeId := tradeId + 1;
      taker' := Updated(taker', tradeQuantity);
      var maker := Updated(restingOrder, tradeQuantity);
      if maker.remaining != 0.0 {
        survivors := [maker];
      }
      j := j + 1;
    }
    assert FillLevel(restingOrders[j..], taker', price, symbol, tradeId) == LevelFill(taker', restingOrders[j..], [], tradeId);
    assert trades + [] == trades;
    level := survivors + restingOrders[j..];
  }

  /** One pass of the loop of `FillOrders`: the fill against the order at index `j` keeps its invariant. */
  lemma FillOrdersNext(level: seq<Order>, j: nat, taker: Order, price: Option<real>, symbol: string, nextId: nat,
                       earlier: seq<Trade>, whole: LevelFill)
    requires j < |level| && taker.remaining > 0.0
    requires whole == Unfilled(FillLevel(level[j..], taker, price, symbol, nextId), [], earlier)
    ensures var q := Min(taker.remaining, level[j].remaining);
            var maker := Updated(level[j], q);
            && whole == Unfilled(FillLevel(level[j + 1..], Updated(taker, q), price, symbol, nextId + 1),
                                 if maker.remaining != 0.0 then [maker] else [],
                                 earlier + [CreateTrade(symbol, taker, level[j], q, price, nextId)])
            && (maker.remaining != 0.0 ==> Updated(taker, q).remaining <= 0.0)
  {
    FillStepUnfilled(level, j, taker, price, symbol, nextId, earlier);
  }

  class MatchingEngine {
    const orderBook: OrderBook
    /** The source of fresh trade ids. */
    var nextTradeId: nat

    constructor(symbol: string)
      ensures fresh(orderBook) && orderBook.symbol == symbol && orderBook.bids == map[] && orderBook.asks == map[]
      ensures nextTradeId == 0 && Valid()
    {
      orderBook := new OrderBook(symbol);
      nextTradeId := 0;
    }

    ghost predicate Valid()
      reads this, orderBook
    {
      orderBook.Valid()
    }

    /** Matches an incoming order and rests its remainder; the second result is the order as matching left it.
        An order whose prices cannot be compared raises before anything changes. */
    method ProcessOrder(order: Order) returns (r: Result<seq<Trade>>, taker: Order)
      requires Valid() && FreshIn(orderBook.bids, order.id) && FreshIn(orderBook.asks, order.id)
      modifies this, orderBook
      ensures Valid()
      ensures Reflects(Process(old(orderBook.bids), old(orderBook.asks), order, orderBook.symbol, old(nextTradeId)),
                       order, old(orderBook.bids), old(orderBook.asks), old(nextTradeId),
                       r, taker, orderBook.bids, orderBook.asks, nextTradeId)
    {
      if order.orderType == Market {
        r, taker := ProcessMarketOrder(order, orderBook.bids, orderBook.asks);
      } else {
        r, taker := ProcessLimitOrder(order, orderBook.bids, orderBook.asks);
      }
    }

    method ProcessMarketOrder(order: Order, ghost bids0: Book, ghost asks0: Book) returns (r: Result<seq<Trade>>, taker: Order)
      requires Valid() && bids0 == orderBook.bids && asks0 == orderBook.asks
      requires FreshIn(bids0, order.id) && FreshIn(asks0, order.id)
      modifies this, orderBook
      ensures Valid()
      ensures Reflects(Matched(bids0, asks0, order, orderBook.symbol, old(nextTradeId)), order, bids0, asks0,
                       old(nextTradeId), r, taker, orderBook.bids, orderBook.asks, nextTradeId)
    {
      var opposite := orderBook.SideBook(Opposite(order.side));
      var prices := SortKeys(opposite.Keys, order.side == Sell);
      if prices.Err? {
        return Err(prices.error), order;
      }
      r, taker := WalkAndRest(order, prices.value, bids0, asks0);
    }

    method ProcessLimitOrder(order: Order, ghost bids0: Book, ghost asks0: Book) returns (r: Result<seq<Trade>>, taker: Order)
      requires Valid() && bids0 == orderBook.bids && asks0 == orderBook.asks
      requires FreshIn(bids0, order.id) && FreshIn(asks0, order.id) && order.orderType != Market
      modifies this, orderBook
      ensures Valid()
      ensures Reflects(ProcessLimit(bids0, asks0, order, orderBook.symbol, old(nextTradeId)), order, bids0, asks0,
                       old(nextTradeId), r, taker, orderBook.bids, orderBook.asks, nextTradeId)
    {
      var opposite := orderBook.SideBook(Opposite(order.side));
      var canMatch := false;
      if opposite != map[] {
        var best := BestPrice(opposite.Keys, order.side == Sell);
        if best.Err? {
          return Err(best.error), order;
        }
        var can := CanMatch(order, best.value);
        if can.Err? {
          return Err(can.error), order;
        }
        canMatch := can.value;
      }
      assert LimitCrosses(bids0, asks0, order) == Ok(canMatch);
      if canMatch {
        var prices := SortKeys(opposite.Keys, order.side == Sell);
        r, taker := WalkAndRest(order, prices.value, bids0, asks0);
      } else {
        taker := order;
        RestRemainder(taker, order, orderBook.SideBook(order.side));
        r := Ok([]);
      }
    }

    /** Walks the sorted opposite levels and rests what is left of the order. */
    method WalkAndRest(order: Order, prices: seq<Option<real>>, ghost bids0: Book, ghost asks0: Book)
      returns (r: Result<seq<Trade>>, taker: Order)
      requires Valid() && bids0 == orderBook.bids && asks0 == orderBook.asks
      requires FreshIn(bids0, order.id) && FreshIn(asks0, order.id)
      requires SortKeys(OppositeBook(bids0, asks0, order.side).Keys, order.side == Sell) == Ok(prices)
      modifies this, orderBook
      ensures Valid()
      ensures Reflects(Matched(bids0, asks0, order, orderBook.symbol, old(nextTradeId)), order, bids0, asks0,
                       old(nextTradeId), r, taker, orderBook.bids, orderBook.asks, nextTradeId)
    {
      ghost var opp := OppositeBook(bids0, asks0, order.side);
      ghost var own := orderBook.SideBook(order.side);
      assert Levels(opp, prices) by {
        var desc := order.side == Sell;
        forall i, j | 0 <= i < j < |prices| ensures prices[i] != prices[j] {
          assert if desc then Below(prices[j], prices[i]) else Below(prices[i], prices[j]);
        }
      }
      ghost var s := Sweep(opp, prices, order, orderBook.symbol, nextTradeId);
      SweepFacts(opp, prices, order, orderBook.symbol, nextTradeId);
      var trades;
      taker, trades := SweepLevels(order, prices, opp, own);
      RestRemainder(taker, order, own);
      r := Ok(trades);
    }

    /** Rests what is left of the taker at the back of its own side's level at its price. */
    method RestRemainder(taker: Order, order: Order, ghost own: Book)
      requires orderBook.Valid() && taker.side == order.side && taker.price == order.price && taker.id == order.id
      requires own == orderBook.SideBook(order.side) && FreshIn(own, order.id)
      modifies orderBook
      ensures orderBook.Valid()
      ensures orderBook.SideBook(order.side) == (if taker.remaining > 0.0 then Appended(own, taker.price, taker) else own)
      ensures orderBook.SideBook(Opposite(order.side)) == old(orderBook.SideBook(Opposite(order.side)))
    {
      if taker.remaining > 0.0 {
        AppendedGood(own, order.side, taker);
        orderBook.AddOrder(taker);
      }
    }

    /** Walks the levels `prices` of the side opposite the taker, as `Sweep` describes. */
    method SweepLevels(taker: Order, prices: seq<Option<real>>, ghost opp0: Book, ghost own0: Book)
      returns (taker': Order, trades: seq<Trade>)
      requires orderBook.Valid()
      requires opp0 == orderBook.SideBook(Opposite(taker.side)) && own0 == orderBook.SideBook(taker.side)
      requires Levels(opp0, prices)
      modifies this, orderBook
      ensures orderBook.Valid()
      ensures var s := Sweep(opp0, prices, taker, orderBook.symbol, old(nextTradeId));
              && taker' == s.taker && trades == s.trades && nextTradeId == s.nextId
              && orderBook.SideBook(Opposite(taker.side)) == s.book && orderBook.SideBook(taker.side) == own0
    {
      var side := Opposite(taker.side);
      var symbol := orderBook.symbol;
      assert GoodBook(own0, taker.side) && GoodBook(opp0, side);
      ghost var whole := Sweep(opp0, prices, taker, symbol, nextTradeId);
      ghost var cur := opp0;
      taker' := taker;
      trades := [];
      var i := 0;
      assert prices[i..] == prices;
      while i < |prices|
        invariant 0 <= i <= |prices|
        invariant orderBook.SideBook(taker.side) == own0 && orderBook.SideBook(side) == cur
        invariant GoodBook(cur, side) && Levels(cur, prices[i..])
        invariant taker'.side == taker.side
        invariant whole == Joined(Sweep(cur, prices[i..], taker', symbol, nextTradeId), trades)
      {
        if taker'.remaining <= 0.0 || !Crosses(taker', prices[i]) {
          break;
        }
        SweepLevelNext(cur, prices, i, taker', symbol, nextTradeId, trades, side);
        ghost var f := FillLevel(cur[prices[i]], taker', prices[i], symbol, nextTradeId);
        var levelTrades;
        taker', levelTrades := MatchLevel(taker', prices[i], cur, own0);
        cur := SetLevel(cur, prices[i], f.level);
        trades := trades + levelTrades;
        i := i + 1;
      }
      assert Sweep(cur, prices[i..], taker', symbol, nextTradeId) == Swept(cur, taker', [], nextTradeId);
      assert trades + [] == trades;
    }

    /** The taker meets the level at `price` on the opposite side, as `FillLevel` describes. */
    method MatchLevel(taker: Order, price: Option<real>, ghost opp0: Book, ghost own0: Book)
      returns (taker': Order, trades: seq<Trade>)
      requires opp0 == orderBook.SideBook(Opposite(taker.side)) && own0 == orderBook.SideBook(taker.side)
      requires price in opp0 && opp0[price] != [] && GoodLevel(opp0[price], price, Opposite(taker.side))
      modifies this, orderBook
      ensures var f := FillLevel(opp0[price], taker, price, orderBook.symbol, old(nextTradeId));
              && taker' == f.taker && trades == f.trades && nextTradeId == f.nextId
              && orderBook.SideBook(Opposite(taker.side)) == SetLevel(opp0, price, f.level)
              && orderBook.SideBook(taker.side) == own0
    {
      var side := Opposite(taker.side);
      var symbol := orderBook.symbol;
      var restingOrders := orderBook.GetOrdersAtPrice(side, price);
      var level, tradeId;
      taker', level, trades, tradeId := FillOrders(restingOrders, taker, price, symbol, nextTradeId);
      orderBook.PutLevel(side, price, level);
      nextTradeId := tradeId;
    }

    /** Cancels the resting order with this id, looking in the bids first: it leaves its level, which is
        deleted if it empties, and comes back marked cancelled. An unknown id changes nothing. */
    method CancelOrder(orderId: nat) returns (r: Option<Order>)
      requires Valid()
      modifies orderBook
      ensures Valid()
      ensures r.None? <==> FreshIn(old(orderBook.bids), orderId) && FreshIn(old(orderBook.asks), orderId)
      ensures r.None? ==> orderBook.bids == old(orderBook.bids) && orderBook.asks == old(orderBook.asks)
      ensures r.Some? ==>
                && r.value.id == orderId && r.value.status == Cancelled
                && (!FreshIn(old(orderBook.bids), orderId) ==> r.value.side == Buy)
                && var was := old(orderBook.SideBook(r.value.side));
                && r.value.price in was && r.value.(status := Pending) in Restatused(was[r.value.price])
                && orderBook.SideBook(r.value.side) == Removed(was, r.value.price, orderId)
                && orderBook.SideBook(Opposite(r.value.side)) == old(orderBook.SideBook(Opposite(r.value.side)))
    {
      if !FreshIn(orderBook.bids, orderId) {
        r := CancelIn(Buy, orderId);
      } else if !FreshIn(orderBook.asks, orderId) {
        r := CancelIn(Sell, orderId);
      } else {
        r := None;
      }
    }

    method CancelIn(side: Side, orderId: nat) returns (r: Option<Order>)
      requires Valid() && !FreshIn(orderBook.SideBook(side), orderId)
      modifies orderBook
      ensures Valid()
      ensures r.Some? && r.value.id == orderId && r.value.status == Cancelled && r.value.side == side
      ensures var was := old(orderBook.SideBook(side));
              && r.value.price in was && r.value.(status := Pending) in Restatused(was[r.value.price])
              && orderBook.SideBook(side) == Removed(was, r.value.price, orderId)
              && orderBook.SideBook(Opposite(side)) == old(orderBook.SideBook(Opposite(side)))
    {
      var book := orderBook.SideBook(side);
      var price: Option<real> :| price in book && exists o: Order :: o in book[price] && o.id == orderId;
      var order: Order :| order in book[price] && order.id == orderId;
      assert order.price == price && order.side == side by {
        var k :| 0 <= k < |book[price]| && book[price][k] == order;
      }
      RemovedGood(book, price, orderId, side);
      orderBook.RemoveOrder(order);
      RestatusedHas(book[price], order);
      r := Some(order.(status := Cancelled));
    }

    /** The depth snapshot of the book. */
    function GetOrderBookSnapshot(depth: int): (r: Result<Snapshot>)
      reads this, orderBook
      ensures r == SnapshotOf(orderBook.bids, orderBook.asks, depth)
    {
      SnapshotOf(orderBook.bids, orderBook.asks, depth)
    }
  }

  /** The orders of a level with their status reset, to compare orders regardless of status. */
  function Restatused(level: seq<Order>): (r: seq<Order>)
    ensures |r| == |level| && forall i :: 0 <= i < |level| ==> r[i] == level[i].(status := Pending)
  {
    if level == [] then [] else [level[0].(status := Pending)] + Restatused(level[1..])
  }

  lemma RestatusedHas(level: seq<Order>, o: Order)
    requires o in level
    ensures o.(status := Pending) in Restatused(level)
  {
    var k :| 0 <= k < |level| && level[k] == o;
    assert Restatused(level)[k] == o.(status := Pending);
  }

  lemma UniqueSuffix(level: seq<Order>, j: nat)
    requires UniqueIds(level) && j <= |level|
    ensures UniqueIds(level[j..])
  {
    forall a, b | 0 <= a < b < |level[j..]| ensures level[j..][a].id != level[j..][b].id {
      assert level[j..][a] == level[j + a] && level[j..][b] == level[j + b];
    }
  }

  /** A level fill with the survivors `done` put in front and the trades `earlier` before its own. */
  function Unfilled(f: LevelFill, done: seq<Order>, earlier: seq<Trade>): LevelFill {
    LevelFill(f.taker, done + f.level, earlier + f.trades, f.nextId)
  }

  /** One fill against the order at index `j`, seen from the loop over a level: its trade joins the earlier
      ones and a maker with something left joins the survivors. */
  lemma FillStepUnfilled(level: seq<Order>, j: nat, taker: Order, price: Option<real>, symbol: string, nextId: nat,
                         earlier: seq<Trade>)
    requires j < |level| && taker.remaining > 0.0
    ensures var q := Min(taker.remaining, level[j].remaining);
            var t := CreateTrade(symbol, taker, level[j], q, price, nextId);
            var rest := FillLevel(level[j + 1..], Updated(taker, q), price, symbol, nextId + 1);
            Unfilled(FillLevel(level[j..], taker, price, symbol, nextId), [], earlier) ==
              Unfilled(rest, Keep(Updated(level[j], q)), earlier + [t])
  {
    FillStep(level, j, taker, price, symbol, nextId);
    var q := Min(taker.remaining, level[j].remaining);
    var t := CreateTrade(symbol, taker, level[j], q, price, nextId);
    var rest := FillLevel(level[j + 1..], Updated(taker, q), price, symbol, nextId + 1);
    assert earlier + ([t] + rest.trades) == (earlier + [t]) + rest.trades;
  }

  /** One fill of the taker against the order at index `j`, as `FillLevel` unfolds it. */
  lemma FillStep(level: seq<Order>, j: nat, taker: Order, price: Option<real>, symbol: string, nextId: nat)
    requires j < |level| && taker.remaining > 0.0
    ensures var q := Min(taker.remaining, level[j].remaining);
            var rest := FillLevel(level[j + 1..], Updated(taker, q), price, symbol, nextId + 1);
            FillLevel(level[j..], taker, price, symbol, nextId) ==
              LevelFill(rest.taker, Keep(Updated(level[j], q)) + rest.level,
                        [CreateTrade(symbol, taker, level[j], q, price, nextId)] + rest.trades, rest.nextId)
  {
    assert level[j..][1..] == level[j + 1..];
  }

  /** Taking an id out of one level keeps a good side good. */
  lemma RemovedGood(book: Book, price: Option<real>, id: nat, side: Side)
    requires GoodBook(book, side)
    ensures GoodBook(Removed(book, price, id), side)
  {
    if price in book {
      WithoutGood(book[price], id, price, side);
    }
  }

  lemma {:induction false} WithoutGood(level: seq<Order>, id: nat, p: Option<real>, s: Side)
    requires GoodLevel(level, p, s)
    ensures GoodLevel(Without(level, id), p, s) && IdsOf(Without(level, id)) <= IdsOf(level)
  {
    if level != [] {
      TailFacts(level);
      assert GoodLevel(level[1..], p, s) by {
        forall i | 0 <= i < |level[1..]| ensures level[1..][i].price == p && level[1..][i].side == s && level[1..][i].remaining > 0.0 {
          assert level[1..][i] == level[i + 1];
        }
      }
      WithoutGood(level[1..], id, p, s);
      IdsOfTail(level);
      var rest := Without(level[1..], id);
      assert level[0].id !in IdsOf(rest);
      var kept := if level[0].id == id then [] else [level[0]];
      KeptGood(kept, rest, level[0], p, s);
      assert Without(level, id) == kept + rest;
      forall o: Order | o in kept + rest ensures o.id in IdsOf(level) {
        if o in kept {
          assert o == level[0] && level[0] in level;
        } else {
          assert o.id in IdsOf(level[1..]);
        }
      }
    }
  }
}
