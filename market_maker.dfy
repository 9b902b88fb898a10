/** The market-making strategy: an agent that keeps one bid and one ask quote per symbol, widens its spread
    with volatility, skews it with inventory, sizes its quotes against its position and withdraws quotes that
    have grown stale. */
module MarketMaking {
  import opened Wrappers
  import opened Models
  import opened Agents
  import opened Quoting

  /** Quotes still at the top of the book are refreshed once they are older than this, in milliseconds. */
  const UpdateInterval := 100

  /** A quote older than this, in milliseconds, is withdrawn. */
  const StaleAfter := 5000

  /** The resting quotes for one symbol. */
  datatype Quotes = Quotes(bid: Option<Order>, ask: Option<Order>)

  /** One level of a book snapshot: its price (absent for a market order's remainder) and its quantity. */
  type Level = (Option<real>, real)

  /** Everything the strategy changes: the agent's ledger, the price samples per symbol, the quotes per symbol
      and when the quotes were last placed. */
  datatype Maker = Maker(ledger: Ledger, lastPrices: map<string, seq<Option<real>>>, quotes: map<string, Quotes>,
                         lastOrderUpdate: int)

  /** The mid price between a bid and an ask. */
  function MidPrice(bid: real, ask: real): (r: real)
    ensures bid <= ask ==> bid <= r <= ask
  {
    (bid + ask) / 2.0
  }

  /** How many price samples are kept per symbol. */
  function Window(p: Params): nat {
    if p.volatilityWindow > 0 then p.volatilityWindow else 0
  }

  /** A well-formed strategy: its ledger is well formed, it keeps samples and quotes for exactly its symbols,
      and no sample list is longer than the window. */
  ghost predicate GoodMaker(p: Params, symbols: seq<string>, m: Maker) {
    && GoodLedger(m.ledger)
    && (forall s :: s in m.lastPrices <==> s in symbols)
    && (forall s :: s in m.quotes <==> s in symbols)
    && (forall s :: s in m.lastPrices ==> |m.lastPrices[s]| <= Window(p))
  }

  /** `samples` with `x` appended, the oldest sample dropped when that makes the list longer than the window:
      a list within the window stays within it and holds the latest samples. */
  function Pushed(p: Params, samples: seq<Option<real>>, x: Option<real>): (r: seq<Option<real>>)
    ensures |samples| <= Window(p) ==> |r| <= Window(p)
    ensures |samples| <= Window(p) && Window(p) > 0 ==> r == PyLast(samples + [x], Window(p))
  {
    var s := samples + [x];
    if |s| > p.volatilityWindow then s[1..] else s
  }

  /** The samples with `x` recorded for `symbol`. */
  function Recorded(p: Params, m: Maker, symbol: string, x: Option<real>): Maker
    requires symbol in m.lastPrices
  {
    m.(lastPrices := m.lastPrices[symbol := Pushed(p, m.lastPrices[symbol], x)])
  }

  /** The quote placed on `side` for a position of `q`: placed only when filling it would keep the position
      within the limit, as a pending limit order of `size` at `price`. */
  function QuoteOf(p: Params, symbol: string, side: Side, q: real, size: real, price: real, agentId: string,
                   id: nat, now: int): (r: Option<Order>)
    ensures r.Some? <==> Abs(if side == Buy then q + size else q - size) <= p.positionLimit
    ensures r.Some? ==> r.value == Models.CreateLimitOrder(id, symbol, side, size, price, agentId, now)
  {
    if Abs(if side == Buy then q + size else q - size) <= p.positionLimit
    then Some(Models.CreateLimitOrder(id, symbol, side, size, price, agentId, now)) else None
  }

  /** The quotes placed for a position of `q`: a side is quoted only when filling it would keep the position
      within the limit, as a pending limit order of that side's size at that side's price. */
  function PlacedQuotes(p: Params, symbol: string, q: real, bidPrice: real, askPrice: real, agentId: string,
                        bidId: nat, askId: nat, now: int): (r: Quotes)
    requires q != 0.0 ==> p.positionLimit != 0.0
    ensures var sizes := QuoteSizes(p, q);
            && (r.bid.Some? <==> Abs(q + sizes.0) <= p.positionLimit)
            && (r.ask.Some? <==> Abs(q - sizes.1) <= p.positionLimit)
            && (r.bid.Some? ==> r.bid.value == Models.CreateLimitOrder(bidId, symbol, Buy, sizes.0, bidPrice, agentId, now))
            && (r.ask.Some? ==> r.ask.value == Models.CreateLimitOrder(askId, symbol, Sell, sizes.1, askPrice, agentId, now))
  {
    var sizes := QuoteSizes(p, q);
    Quotes(QuoteOf(p, symbol, Buy, q, sizes.0, bidPrice, agentId, bidId, now),
           QuoteOf(p, symbol, Sell, q, sizes.1, askPrice, agentId, askId, now))
  }

  /** The ledger with the placed quotes recorded among the agent's orders, the bid first. */
  function PlacedLedger(l: Ledger, quotes: Quotes): Ledger {
    var l1 := if quotes.bid.Some? then Registered(l, quotes.bid.value) else l;
    if quotes.ask.Some? then Registered(l1, quotes.ask.value) else l1
  }

  /** Recording the quotes keeps the ledger well formed, records each placed quote (the ask wins a shared id)
      and touches nothing but the orders. */
  lemma PlacedLedgerFacts(l: Ledger, quotes: Quotes)
    requires GoodLedger(l)
    ensures var r := PlacedLedger(l, quotes);
            && GoodLedger(r) && r.positions == l.positions && r.balance == l.balance && r.symbols == l.symbols
            && r.trades == l.trades && r.agentId == l.agentId
            && (quotes.ask.Some? ==> quotes.ask.value.id in r.orders && r.orders[quotes.ask.value.id] == quotes.ask.value)
            && (quotes.bid.Some? && (quotes.ask.Some? ==> quotes.ask.value.id != quotes.bid.value.id) ==>
                  quotes.bid.value.id in r.orders && r.orders[quotes.bid.value.id] == quotes.bid.value)
  {
    var l1 := if quotes.bid.Some? then Registered(l, quotes.bid.value) else l;
    if quotes.bid.Some? {
      RegisteredFacts(l, quotes.bid.value);
    }
    if quotes.ask.Some? {
      RegisteredFacts(l1, quotes.ask.value);
    }
  }

  /** Recording placed quotes for a tracked symbol keeps the strategy well formed. */
  lemma PlacedKeepsGood(p: Params, symbols: seq<string>, m: Maker, symbol: string, quotes: Quotes)
    requires GoodMaker(p, symbols, m) && symbol in symbols
    ensures GoodMaker(p, symbols, m.(ledger := PlacedLedger(m.ledger, quotes), quotes := m.quotes[symbol := quotes]))
  {
    PlacedLedgerFacts(m.ledger, quotes);
  }

  /** The strategy with the quotes for `symbol` withdrawn: if any was present, every open order of the agent
      is cancelled (once or twice, which is the same); both quotes are then absent. */
  function QuotesCancelled(m: Maker, symbol: string): (r: Maker)
    requires symbol in m.quotes
    ensures symbol in r.quotes && r.quotes[symbol] == Quotes(None, None) && r.lastPrices == m.lastPrices
    ensures forall s :: s != symbol ==> (s in r.quotes <==> s in m.quotes) && (s in m.quotes ==> r.quotes[s] == m.quotes[s])
  {
    var quotes := m.quotes[symbol];
    m.(ledger := if quotes.bid.Some? || quotes.ask.Some? then WithoutOpenOrders(m.ledger) else m.ledger,
       quotes := m.quotes[symbol := Quotes(None, None)])
  }

  /** Whether the quotes for `symbol` are to be replaced: when a side of the book is empty or a quote is
      missing; otherwise when a quote is no longer the best price of its side or the quotes are older than the
      update interval. A missing top price cannot be converted to a decimal. */
  function ShouldUpdate(m: Maker, symbol: string, bids: seq<Level>, asks: seq<Level>, now: int): (r: Result<bool>)
    ensures r == Ok(false) <==>
              && bids != [] && asks != [] && symbol in m.quotes
              && m.quotes[symbol].bid.Some? && m.quotes[symbol].ask.Some?
              && bids[0].0.Some? && asks[0].0.Some?
              && m.quotes[symbol].bid.value.price == bids[0].0 && m.quotes[symbol].ask.value.price == asks[0].0
              && now - m.lastOrderUpdate <= UpdateInterval
    ensures r.Err? ==> bids != [] && asks != []
  {
    if bids == [] || asks == [] then Ok(true)
    else if symbol !in m.quotes then Err(KeyError)
    else
      var quotes := m.quotes[symbol];
      if quotes.bid.None? || quotes.ask.None? then Ok(true)
      else if bids[0].0.None? || asks[0].0.None? then Err(DecimalInvalidOperation)
      else Ok(quotes.bid.value.price != bids[0].0 || quotes.ask.value.price != asks[0].0
              || now - m.lastOrderUpdate > UpdateInterval)
  }

  /** The ledger after `calculate_spread` (the position is created once the volatility is known) and the bid
      and ask prices it returns, or the exception it raises. */
  function SpreadOutcome(p: Params, m: Maker, symbol: string, mid: real, estimate: real): (r: (Ledger, Result<(real, real)>))
    requires symbol in m.lastPrices
    ensures r.1.Ok? ==> PositionOf(m.ledger, symbol).quantity != 0.0 ==> p.positionLimit != 0.0
    ensures r.1.Ok? ==> r.0 == WithPosition(m.ledger, symbol)
    ensures r.0 == m.ledger || r.0 == WithPosition(m.ledger, symbol)
  {
    match Volatility(p, m.lastPrices[symbol], estimate)
    case Err(e) => (m.ledger, Err(e))
    case Ok(volatility) =>
      var l := WithPosition(m.ledger, symbol);
      match InventoryRatio(PositionOf(m.ledger, symbol).quantity, p.positionLimit)
      case Err(e) => (l, Err(e))
      case Ok(ratio) => (l, Ok(QuotePrices(p, volatility, ratio, mid)))
  }

  /** The strategy once the quotes for a position of `q` are placed at `prices` and the time is stamped. */
  function Placed(p: Params, m: Maker, symbol: string, q: real, prices: (real, real), bidId: nat, askId: nat,
                  now: int): Maker
    requires q != 0.0 ==> p.positionLimit != 0.0
  {
    var quotes := PlacedQuotes(p, symbol, q, prices.0, prices.1, m.ledger.agentId, bidId, askId, now);
    m.(ledger := PlacedLedger(m.ledger, quotes), quotes := m.quotes[symbol := quotes], lastOrderUpdate := now)
  }

  /** The strategy once the spread is known: the old quotes are withdrawn and the new ones placed, or the
      exception of `calculate_spread` propagates. */
  function Replaced(p: Params, m: Maker, symbol: string, q: real, prices: Result<(real, real)>, bidId: nat,
                    askId: nat, now: int): Outcome<Maker>
    requires symbol in m.quotes && (prices.Ok? && q != 0.0 ==> p.positionLimit != 0.0)
  {
    match prices
    case Err(e) => Raised(e, m)
    case Ok(pr) => Done(Placed(p, QuotesCancelled(m, symbol), symbol, q, pr, bidId, askId, now))
  }

  /** The strategy after re-quoting around `mid`: the mid is recorded, the spread calculated, the old quotes
      withdrawn and the new ones placed. */
  function Requoted(p: Params, m: Maker, symbol: string, mid: real, now: int, estimate: real, bidId: nat, askId: nat)
    : Outcome<Maker>
    requires symbol in m.lastPrices && symbol in m.quotes
  {
    var m1 := Recorded(p, m, symbol, Some(mid));
    var spread := SpreadOutcome(p, m1, symbol, mid, estimate);
    Replaced(p, m1.(ledger := spread.0), symbol, PositionOf(m1.ledger, symbol).quantity, spread.1, bidId, askId, now)
  }

  /** The strategy after a book update for `symbol`: an untracked symbol or an empty side changes nothing;
      otherwise the quotes are replaced when they are to be updated. */
  function BookUpdated(p: Params, symbols: seq<string>, m: Maker, symbol: string, bids: seq<Level>, asks: seq<Level>,
                       now: int, estimate: real, bidId: nat, askId: nat): (r: Outcome<Maker>)
    requires forall s :: s in symbols ==> s in m.lastPrices && s in m.quotes
    ensures symbol !in symbols || bids == [] || asks == [] ==> r == Done(m)
    ensures ShouldUpdate(m, symbol, bids, asks, now) == Ok(false) ==> r == Done(m)
    ensures symbol in symbols && ShouldUpdate(m, symbol, bids, asks, now).Err? ==>
              r == Raised(ShouldUpdate(m, symbol, bids, asks, now).error, m)
    ensures r.Final() == m || (&& symbol in symbols && bids != [] && asks != []
                               && ShouldUpdate(m, symbol, bids, asks, now) == Ok(true)
                               && bids[0].0.Some? && asks[0].0.Some?)
  {
    if symbol !in symbols || bids == [] || asks == [] then Done(m)
    else
      match ShouldUpdate(m, symbol, bids, asks, now)
      case Err(e) => Raised(e, m)
      case Ok(update) =>
        if !update then Done(m)
        else if bids[0].0.None? || asks[0].0.None? then Raised(DecimalInvalidOperation, m)
        else Requoted(p, m, symbol, MidPrice(bids[0].0.value, asks[0].0.value), now, estimate, bidId, askId)
  }

  /** Placing quotes keeps the strategy well formed and the positions as they were, records each placed quote
      among the agent's orders (the bid when its id differs from the ask's), and stamps the time; each placed
      quote keeps the position of `q` within the limit. */
  lemma PlacedFacts(p: Params, symbols: seq<string>, m: Maker, symbol: string, q: real, prices: (real, real),
                    bidId: nat, askId: nat, now: int)
    requires GoodMaker(p, symbols, m) && symbol in symbols && (q != 0.0 ==> p.positionLimit != 0.0)
    ensures var r := Placed(p, m, symbol, q, prices, bidId, askId, now);
            var quotes := r.quotes[symbol];
            && GoodMaker(p, symbols, r) && r.ledger.positions == m.ledger.positions && r.lastOrderUpdate == now
            && (quotes.bid.Some? ==>
                  && Abs(q + quotes.bid.value.quantity) <= p.positionLimit && quotes.bid.value.side == Buy
                  && (bidId != askId ==>
                        quotes.bid.value.id in r.ledger.orders && r.ledger.orders[quotes.bid.value.id] == quotes.bid.value))
            && (quotes.ask.Some? ==>
                  && Abs(q - quotes.ask.value.quantity) <= p.positionLimit && quotes.ask.value.side == Sell
                  && quotes.ask.value.id in r.ledger.orders && r.ledger.orders[quotes.ask.value.id] == quotes.ask.value)
  {
    var quotes := PlacedQuotes(p, symbol, q, prices.0, prices.1, m.ledger.agentId, bidId, askId, now);
    PlacedLedgerFacts(m.ledger, quotes);
    PlacedKeepsGood(p, symbols, m, symbol, quotes);
  }

  /** Withdrawing the quotes of a tracked symbol keeps the strategy well formed and the positions as they were. */
  lemma CancelledKeepsGood(p: Params, symbols: seq<string>, m: Maker, symbol: string)
    requires GoodMaker(p, symbols, m) && symbol in symbols
    ensures var r := QuotesCancelled(m, symbol);
            GoodMaker(p, symbols, r) && r.ledger.positions == m.ledger.positions && r.quotes[symbol] == Quotes(None, None)
  {
    CancelAllFacts(m.ledger);
  }

  /** Replacing the quotes keeps the strategy well formed, and a completed replacement has the facts of
      `PlacedFacts` with the positions of `m`. */
  lemma ReplacedFacts(p: Params, symbols: seq<string>, m: Maker, symbol: string, q: real, prices: Result<(real, real)>,
                      bidId: nat, askId: nat, now: int)
    requires GoodMaker(p, symbols, m) && symbol in symbols && (prices.Ok? && q != 0.0 ==> p.positionLimit != 0.0)
    ensures var r := Replaced(p, m, symbol, q, prices, bidId, askId, now);
            && GoodMaker(p, symbols, r.Final())
            && (r.Done? ==> r.value == Placed(p, QuotesCancelled(m, symbol), symbol, q, prices.value, bidId, askId, now))
  {
    if prices.Ok? {
      CancelledKeepsGood(p, symbols, m, symbol);
      PlacedFacts(p, symbols, QuotesCancelled(m, symbol), symbol, q, prices.value, bidId, askId, now);
    }
  }

  /** The strategy after recording the mid and calculating the spread is well formed when the strategy was,
      and has the original positions with one for `symbol` when the spread is known. */
  lemma SpreadKeepsGood(p: Params, symbols: seq<string>, m: Maker, symbol: string, mid: real, estimate: real)
    requires GoodMaker(p, symbols, m) && symbol in symbols
    ensures var m1 := Recorded(p, m, symbol, Some(mid));
            var spread := SpreadOutcome(p, m1, symbol, mid, estimate);
            && GoodMaker(p, symbols, m1.(ledger := spread.0))
            && (spread.1.Ok? ==> PositionOf(spread.0, symbol) == PositionOf(m.ledger, symbol))
  {
    WithPositionFacts(m.ledger, symbol);
  }

  /** A re-quote keeps the strategy well formed. */
  lemma RequotedKeepsGood(p: Params, symbols: seq<string>, m: Maker, symbol: string, mid: real, now: int,
                          estimate: real, bidId: nat, askId: nat)
    requires GoodMaker(p, symbols, m) && symbol in symbols
    ensures GoodMaker(p, symbols, Requoted(p, m, symbol, mid, now, estimate, bidId, askId).Final())
  {
    var m1 := Recorded(p, m, symbol, Some(mid));
    var spread := SpreadOutcome(p, m1, symbol, mid, estimate);
    SpreadKeepsGood(p, symbols, m, symbol, mid, estimate);
    ReplacedFacts(p, symbols, m1.(ledger := spread.0), symbol, PositionOf(m1.ledger, symbol).quantity, spread.1,
                  bidId, askId, now);
  }

  /** A re-quote in steps: the spread is calculated on the strategy with the mid recorded, and the quotes are
      replaced on the strategy with the ledger `calculate_spread` leaves. */
  lemma RequotedSteps(p: Params, m: Maker, symbol: string, mid: real, now: int, estimate: real, bidId: nat,
                      askId: nat)
    requires symbol in m.lastPrices && symbol in m.quotes
    ensures var m1 := Recorded(p, m, symbol, Some(mid));
            var spread := SpreadOutcome(p, m1, symbol, mid, estimate);
            var r := Requoted(p, m, symbol, mid, now, estimate, bidId, askId);
            && (spread.1.Err? ==> r == Raised(spread.1.error, m1.(ledger := spread.0)))
            && (spread.1.Ok? ==> r == Done(Placed(p, QuotesCancelled(m1.(ledger := spread.0), symbol), symbol,
                                                  PositionOf(m.ledger, symbol).quantity, spread.1.value, bidId, askId, now)))
  {
  }

  /** A book update for a tracked symbol whose quotes are to be updated and whose top prices are known
      re-quotes around the mid of the best bid and the best ask. */
  lemma BookUpdateRequotes(p: Params, symbols: seq<string>, m: Maker, symbol: string, bids: seq<Level>,
                           asks: seq<Level>, now: int, estimate: real, bidId: nat, askId: nat)
    requires forall s :: s in symbols ==> s in m.lastPrices && s in m.quotes
    requires symbol in symbols && bids != [] && asks != [] && ShouldUpdate(m, symbol, bids, asks, now) == Ok(true)
    requires bids[0].0.Some? && asks[0].0.Some?
    ensures BookUpdated(p, symbols, m, symbol, bids, asks, now, estimate, bidId, askId)
         == Requoted(p, m, symbol, MidPrice(bids[0].0.value, asks[0].0.value), now, estimate, bidId, askId)
  {
  }

  /** A book update keeps the strategy well formed; in particular no sample list outgrows the window. */
  lemma BookUpdateKeepsGood(p: Params, symbols: seq<string>, m: Maker, symbol: string, bids: seq<Level>,
                            asks: seq<Level>, now: int, estimate: real, bidId: nat, askId: nat)
    requires GoodMaker(p, symbols, m)
    ensures GoodMaker(p, symbols, BookUpdated(p, symbols, m, symbol, bids, asks, now, estimate, bidId, askId).Final())
  {
    if symbol in symbols && bids != [] && asks != [] && ShouldUpdate(m, symbol, bids, asks, now) == Ok(true)
       && bids[0].0.Some? && asks[0].0.Some? {
      BookUpdateRequotes(p, symbols, m, symbol, bids, asks, now, estimate, bidId, askId);
      RequotedKeepsGood(p, symbols, m, symbol, MidPrice(bids[0].0.value, asks[0].0.value), now, estimate, bidId, askId);
    }
  }

  /** A completed re-quote leaves, for the position it was computed from, only quotes that keep the position
      within the limit, records them among the agent's orders, and stamps the time. */
  lemma RequotedQuotes(p: Params, symbols: seq<string>, m: Maker, symbol: string, mid: real, now: int,
                       estimate: real, bidId: nat, askId: nat)
    requires GoodMaker(p, symbols, m) && symbol in symbols && bidId != askId
    requires Requoted(p, m, symbol, mid, now, estimate, bidId, askId).Done?
    ensures var r, q := Requoted(p, m, symbol, mid, now, estimate, bidId, askId).value, PositionOf(m.ledger, symbol).quantity;
            var quotes := r.quotes[symbol];
            && r.lastOrderUpdate == now
            && PositionOf(r.ledger, symbol) == PositionOf(m.ledger, symbol)
            && (quotes.bid.Some? ==>
                  && Abs(q + quotes.bid.value.quantity) <= p.positionLimit && quotes.bid.value.side == Buy
                  && quotes.bid.value.id in r.ledger.orders && r.ledger.orders[quotes.bid.value.id] == quotes.bid.value)
            && (quotes.ask.Some? ==>
                  && Abs(q - quotes.ask.value.quantity) <= p.positionLimit && quotes.ask.value.side == Sell
                  && quotes.ask.value.id in r.ledger.orders && r.ledger.orders[quotes.ask.value.id] == quotes.ask.value)
  {
    var m1 := Recorded(p, m, symbol, Some(mid));
    var spread := SpreadOutcome(p, m1, symbol, mid, estimate);
    var m2, q := m1.(ledger := spread.0), PositionOf(m.ledger, symbol).quantity;
    RequotedSteps(p, m, symbol, mid, now, estimate, bidId, askId);
    SpreadKeepsGood(p, symbols, m, symbol, mid, estimate);
    var m3 := QuotesCancelled(m2, symbol);
    CancelledKeepsGood(p, symbols, m2, symbol);
    PlacedFacts(p, symbols, m3, symbol, q, spread.1.value, bidId, askId, now);
  }

  /** The samples after a trade: a trade in a tracked symbol records its price, which may be missing. */
  function TradeHeard(p: Params, symbols: seq<string>, m: Maker, trade: Trade): (r: Maker)
    requires forall s :: s in symbols ==> s in m.lastPrices
    ensures trade.symbol !in symbols ==> r == m
    ensures r.ledger == m.ledger && r.quotes == m.quotes && r.lastOrderUpdate == m.lastOrderUpdate
  {
    if trade.symbol in symbols then Recorded(p, m, trade.symbol, trade.price) else m
  }

  /** A trade keeps the strategy well formed: the window bound holds afterwards. */
  lemma TradeKeepsGood(p: Params, symbols: seq<string>, m: Maker, trade: Trade)
    requires GoodMaker(p, symbols, m)
    ensures GoodMaker(p, symbols, TradeHeard(p, symbols, m, trade))
  {
  }

  /** Whether one of the quotes is older than five seconds at `now`. */
  predicate Stale(quotes: Quotes, now: int) {
    || (quotes.bid.Some? && now - quotes.bid.value.createdAt > StaleAfter)
    || (quotes.ask.Some? && now - quotes.ask.value.createdAt > StaleAfter)
  }

  /** The strategy once the quotes of every symbol of `symbols`, in order, are withdrawn if stale. */
  function StaleSwept(symbols: seq<string>, m: Maker, now: int): (r: Maker)
    requires forall s :: s in symbols ==> s in m.quotes
    ensures forall s :: s in r.quotes <==> s in m.quotes
  {
    if symbols == [] then m
    else
      var init, last := symbols[..|symbols| - 1], symbols[|symbols| - 1];
      var r := StaleSwept(init, m, now);
      assert last in symbols;
      if Stale(r.quotes[last], now) then QuotesCancelled(r, last) else r
  }

  /** A sweep withdraws exactly the stale quotes of the swept symbols and leaves every other quote as it was;
      the agent's open orders are cancelled when and only when some swept quote was stale. */
  lemma {:induction false} SweepFacts(symbols: seq<string>, m: Maker, now: int)
    requires forall s :: s in symbols ==> s in m.quotes
    ensures var r := StaleSwept(symbols, m, now);
            && (forall s :: s in r.quotes <==> s in m.quotes)
            && (forall s :: s in m.quotes ==>
                  r.quotes[s] == if s in symbols && Stale(m.quotes[s], now) then Quotes(None, None) else m.quotes[s])
            && r.ledger == (if exists s :: s in symbols && Stale(m.quotes[s], now) then WithoutOpenOrders(m.ledger)
                            else m.ledger)
            && r.lastPrices == m.lastPrices && r.lastOrderUpdate == m.lastOrderUpdate
  {
    if symbols != [] {
      var init, last := symbols[..|symbols| - 1], symbols[|symbols| - 1];
      SweepFacts(init, m, now);
      var r := StaleSwept(init, m, now);
      assert symbols == init + [last];
      assert forall s :: s in symbols <==> s in init || s == last;
      if last in init {
        assert r.quotes[last] == if Stale(m.quotes[last], now) then Quotes(None, None) else m.quotes[last];
      }
      if Stale(r.quotes[last], now) {
        CancelAllIdempotent(m.ledger);
      }
    }
  }

  /** After a sweep no quote of a swept symbol is stale. */
  lemma SweepLeavesNothingStale(symbols: seq<string>, m: Maker, now: int)
    requires forall s :: s in symbols ==> s in m.quotes
    ensures forall s :: s in symbols ==> !Stale(StaleSwept(symbols, m, now).quotes[s], now)
  {
    SweepFacts(symbols, m, now);
  }

  /** A sweep keeps the strategy well formed. */
  lemma SweepKeepsGood(p: Params, symbols: seq<string>, m: Maker, now: int)
    requires GoodMaker(p, symbols, m)
    ensures GoodMaker(p, symbols, StaleSwept(symbols, m, now))
  {
    SweepFacts(symbols, m, now);
    CancelAllFacts(m.ledger);
  }

  class MarketMaker {
    const params: Params
    const symbols: seq<string>
    const agent: Agent
    var lastPrices: map<string, seq<Option<real>>>
    var quotes: map<string, Quotes>
    var lastOrderUpdate: int

    /** A strategy for `symbols` with a fresh agent, no samples and no quotes, created at `now`. */
    constructor(agentId: string, initialBalance: real, symbols: seq<string>, params: Params, now: int)
      ensures Valid() && fresh(agent) && this.symbols == symbols && this.params == params
      ensures State() == Maker(Ledger(agentId, initialBalance, [], map[], [], map[], []),
                               map s | s in symbols :: [], map s | s in symbols :: Quotes(None, None), now)
    {
      this.params := params;
      this.symbols := symbols;
      agent := new Agent(agentId, initialBalance);
      lastPrices := map s | s in symbols :: [];
      quotes := map s | s in symbols :: Quotes(None, None);
      lastOrderUpdate := now;
    }

    function State(): Maker
      reads this, agent
    {
      Maker(agent.State(), lastPrices, quotes, lastOrderUpdate)
    }

    ghost predicate Valid()
      reads this, agent
    {
      agent.Valid() && GoodMaker(params, symbols, State())
    }

    /** Records a price sample for `symbol`, dropping the oldest beyond the window. */
    method Record(symbol: string, x: Option<real>)
      requires Valid() && symbol in symbols
      modifies this
      ensures Valid() && State() == Recorded(params, old(State()), symbol, x)
    {
      var samples := lastPrices[symbol] + [x];
      if |samples| > params.volatilityWindow {
        samples := samples[1..];
      }
      lastPrices := lastPrices[symbol := samples];
    }

    /** The bid and ask prices around `mid` for `symbol`; the agent's position in `symbol` is created once the
        volatility is known. */
    method CalculateSpread(symbol: string, mid: real, estimate: real) returns (r: Result<(real, real)>)
      requires Valid() && symbol in symbols
      modifies agent
      ensures Valid()
      ensures var s := SpreadOutcome(params, old(State()), symbol, mid, estimate); agent.State() == s.0 && r == s.1
    {
      var volatility := Volatility(params, lastPrices[symbol], estimate);
      if volatility.Err? {
        return Err(volatility.error);
      }
      ghost var l0 := agent.State();
      WithPositionFacts(l0, symbol);
      var position := agent.GetPosition(symbol);
      var ratio := InventoryRatio(position.quantity, params.positionLimit);
      if ratio.Err? {
        return Err(ratio.error);
      }
      r := Ok(QuotePrices(params, volatility.value, ratio.value, mid));
    }

    /** Withdraws the quotes for `symbol`: for each present side every open order of the agent is cancelled. */
    method CancelCurrentQuotes(symbol: string)
      requires Valid() && symbol in symbols
      modifies this, agent
      ensures Valid() && State() == QuotesCancelled(old(State()), symbol)
    {
      CancelledKeepsGood(params, symbols, State(), symbol);
      CancelAllFacts(agent.State());
      CancelAllIdempotent(agent.State());
      var current := quotes[symbol];
      if current.bid.Some? {
        var _ := agent.CancelAllOrders();
      }
      if current.ask.Some? {
        var _ := agent.CancelAllOrders();
      }
      // A side that was absent stays absent, so both are absent afterwards.
      quotes := quotes[symbol := Quotes(None, None)];
    }

    /** Places the quote on `side` for a position of `q` when filling it keeps the position within the limit. */
    method PlaceSide(symbol: string, side: Side, q: real, size: real, price: real, id: nat, now: int)
      returns (order: Option<Order>)
      requires agent.Valid()
      modifies agent
      ensures agent.Valid() && order == QuoteOf(params, symbol, side, q, size, price, agent.agentId, id, now)
      ensures agent.State() == if order.Some? then Registered(old(agent.State()), order.value) else old(agent.State())
    {
      if Abs(if side == Buy then q + size else q - size) <= params.positionLimit {
        var placed := agent.CreateLimitOrder(symbol, side, size, price, id, now);
        order := Some(placed);
      } else {
        order := None;
      }
    }

    /** Places the quotes for a position of `q` in `symbol`, records them and stamps the time. */
    method PlaceQuotes(symbol: string, q: real, bidPrice: real, askPrice: real, bidId: nat, askId: nat, now: int)
      requires Valid() && symbol in symbols && quotes[symbol] == Quotes(None, None)
      requires q != 0.0 ==> params.positionLimit != 0.0
      modifies this, agent
      ensures Valid()
      ensures State() == Placed(params, old(State()), symbol, q, (bidPrice, askPrice), bidId, askId, now)
    {
      PlacedKeepsGood(params, symbols, State(), symbol,
                      PlacedQuotes(params, symbol, q, bidPrice, askPrice, agent.agentId, bidId, askId, now));
      var sizes := QuoteSizes(params, q);
      var bid := PlaceSide(symbol, Buy, q, sizes.0, bidPrice, bidId, now);
      var ask := PlaceSide(symbol, Sell, q, sizes.1, askPrice, askId, now);
      // Both quotes were withdrawn before, so a side not placed stays absent.
      quotes := quotes[symbol := Quotes(bid, ask)];
      lastOrderUpdate := now;
    }

    /** Reacts to a book snapshot for `symbol`: re-quotes around the mid price when the quotes are to be
        updated. `estimate` stands for the volatility estimate; `bidId` and `askId` are the ids of the
        quotes it may place. The result is the exception raised, if any. */
    method OnOrderBookUpdate(symbol: string, bids: seq<Level>, asks: seq<Level>, now: int, estimate: real,
                             bidId: nat, askId: nat) returns (error: Option<PyError>)
      requires Valid()
      modifies this, agent
      ensures Valid()
      ensures var r := BookUpdated(params, symbols, old(State()), symbol, bids, asks, now, estimate, bidId, askId);
              State() == r.Final() && error == r.Failure()
    {
      if symbol !in symbols || bids == [] || asks == [] {
        return None;
      }
      var update := ShouldUpdate(State(), symbol, bids, asks, now);
      if update.Err? {
        return Some(update.error);
      }
      if !update.value {
        return None;
      }
      if bids[0].0.None? || asks[0].0.None? {
        return Some(DecimalInvalidOperation);
      }
      BookUpdateRequotes(params, symbols, State(), symbol, bids, asks, now, estimate, bidId, askId);
      var mid := MidPrice(bids[0].0.value, asks[0].0.value);
      RequotedSteps(params, State(), symbol, mid, now, estimate, bidId, askId);
      error := Requote(symbol, mid, now, estimate, bidId, askId);
    }

    /** Re-quotes `symbol` around `mid`: records the mid, calculates the spread, withdraws the old quotes and
        places the new ones for the position held before. The result is the exception raised, if any;
        `RequotedSteps` shows this is `Requoted`. */
    method Requote(symbol: string, mid: real, now: int, estimate: real, bidId: nat, askId: nat)
      returns (error: Option<PyError>)
      requires Valid() && symbol in symbols
      modifies this, agent
      ensures Valid()
      ensures var m1 := Recorded(params, old(State()), symbol, Some(mid));
              var spread := SpreadOutcome(params, m1, symbol, mid, estimate);
              && (spread.1.Err? ==> State() == m1.(ledger := spread.0) && error == Some(spread.1.error))
              && (spread.1.Ok? ==> error == None && State() == Placed(params, QuotesCancelled(m1.(ledger := spread.0), symbol), symbol,
                                                                   PositionOf(old(State()).ledger, symbol).quantity, spread.1.value, bidId, askId, now))
    {
      ghost var m0 := State();
      Record(symbol, Some(mid));
      ghost var m1 := State();
      WithPositionFacts(m1.ledger, symbol);
      var prices := CalculateSpread(symbol, mid, estimate);
      if prices.Err? {
        return Some(prices.error);
      }
      ghost var m2 := State();
      assert m2 == m1.(ledger := WithPosition(m1.ledger, symbol));
      assert agent.positions[symbol] == PositionOf(m0.ledger, symbol);
      Replace(symbol, prices.value, bidId, askId, now);
      error := None;
    }

    /** Withdraws the quotes for `symbol` and places new ones at `prices` for the agent's position. */
    method Replace(symbol: string, prices: (real, real), bidId: nat, askId: nat, now: int)
      requires Valid() && symbol in symbols && symbol in agent.positions
      requires agent.positions[symbol].quantity != 0.0 ==> params.positionLimit != 0.0
      modifies this, agent
      ensures Valid()
      ensures State() == Placed(params, QuotesCancelled(old(State()), symbol), symbol,
                                old(agent.positions[symbol].quantity), prices, bidId, askId, now)
    {
      CancelAllFacts(agent.State());
      CancelCurrentQuotes(symbol);
      ghost var m := State();
      assert symbol in m.ledger.positions && m.ledger.positions[symbol] == old(agent.positions[symbol]);
      var position := agent.GetPosition(symbol);
      assert State() == m;
      PlaceQuotes(symbol, position.quantity, prices.0, prices.1, bidId, askId, now);
    }

    /** Records the price of a trade in a tracked symbol. */
    method OnTrade(trade: Trade)
      requires Valid()
      modifies this
      ensures Valid() && State() == TradeHeard(params, symbols, old(State()), trade)
    {
      if trade.symbol in symbols {
        Record(trade.symbol, trade.price);
      }
    }

    /** Withdraws, symbol by symbol, the quotes one of which is older than five seconds at `now`. */
    method OnTimeUpdate(now: int)
      requires Valid()
      modifies this, agent
      ensures Valid() && State() == StaleSwept(symbols, old(State()), now)
    {
      var i := 0;
      while i < |symbols|
        invariant 0 <= i <= |symbols|
        invariant Valid() && State() == StaleSwept(symbols[..i], old(State()), now)
      {
        var symbol := symbols[i];
        assert symbols[..i + 1][..i] == symbols[..i] && symbols[..i + 1][i] == symbol;
        var current := quotes[symbol];
        if (current.bid.Some? && now - current.bid.value.createdAt > StaleAfter)
           || (current.ask.Some? && now - current.ask.value.createdAt > StaleAfter) {
          CancelCurrentQuotes(symbol);
        }
        i := i + 1;
      }
      assert symbols[..i] == symbols;
    }
  }
}
