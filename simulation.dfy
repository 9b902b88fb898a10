/** The simulation engine (market_sim/simulation/engine/simulation_engine.py): a clock advanced in fixed steps
    from the start time to the end time, a queue of timed events drained at every step, one matching engine
    per symbol, agents told of every trade, of every step and of every book, and the metrics recorded along
    the way. */
module Simulation {
  import opened Wrappers
  import opened Models
  import opened Agents
  import opened Matching
  import opened Quoting
  import opened MarketMaking

  // ---------------------------------------------------------------------------------------------
  // Events and the event queue

  /** What an event carries: an order, or the fields of a market event. */
  datatype Payload = OrderData(order: Order) | Fields(fields: map<string, string>)

  /** A scheduled event. */
  datatype Event = Event(timestamp: int, eventType: string, data: Payload)

  /** Events are ordered by their timestamps alone. */
  predicate Before(a: Event, b: Event) {
    a.timestamp < b.timestamp
  }

  /** The position of the first of the earliest events of a non-empty queue. */
  function Earliest(q: seq<Event>): (k: nat)
    requires q != []
    ensures k < |q|
    ensures forall i :: 0 <= i < |q| ==> !Before(q[i], q[k])
    ensures forall i :: 0 <= i < k ==> Before(q[k], q[i])
    decreases |q|
  {
    if |q| == 1 then 0
    else
      var init := q[..|q| - 1];
      var k := Earliest(init);
      assert forall i :: 0 <= i < |init| ==> init[i] == q[i];
      if Before(q[|q| - 1], q[k]) then |q| - 1 else k
  }

  /** The events of `q` due at `t`, and those still pending after it, each in queue order. */
  function Due(q: seq<Event>, t: int): seq<Event> {
    if q == [] then [] else (if q[0].timestamp <= t then [q[0]] else []) + Due(q[1..], t)
  }

  function Pending(q: seq<Event>, t: int): seq<Event> {
    if q == [] then [] else (if q[0].timestamp > t then [q[0]] else []) + Pending(q[1..], t)
  }

  /** The due events are those of the queue at or before `t`, the pending ones those after it. */
  lemma {:induction false} FilterMembers(q: seq<Event>, t: int)
    ensures forall e :: e in Due(q, t) <==> e in q && e.timestamp <= t
    ensures forall e :: e in Pending(q, t) <==> e in q && e.timestamp > t
  {
    if q != [] {
      FilterMembers(q[1..], t);
      assert q == [q[0]] + q[1..];
    }
  }

  lemma {:induction false} FiltersAppend(a: seq<Event>, b: seq<Event>, t: int)
    ensures Due(a + b, t) == Due(a, t) + Due(b, t) && Pending(a + b, t) == Pending(a, t) + Pending(b, t)
  {
    DueAppend(a, b, t);
    PendingAppend(a, b, t);
  }

  lemma {:induction false} DueAppend(a: seq<Event>, b: seq<Event>, t: int)
    ensures Due(a + b, t) == Due(a, t) + Due(b, t)
  {
    if a == [] {
      assert a + b == b;
    } else {
      assert (a + b)[0] == a[0] && (a + b)[1..] == a[1..] + b;
      DueAppend(a[1..], b, t);
      var head := if a[0].timestamp <= t then [a[0]] else [];
      assert Due(a + b, t) == head + (Due(a[1..], t) + Due(b, t));
      assert Due(a, t) == head + Due(a[1..], t);
    }
  }

  lemma {:induction false} PendingAppend(a: seq<Event>, b: seq<Event>, t: int)
    ensures Pending(a + b, t) == Pending(a, t) + Pending(b, t)
  {
    if a == [] {
      assert a + b == b;
    } else {
      assert (a + b)[0] == a[0] && (a + b)[1..] == a[1..] + b;
      PendingAppend(a[1..], b, t);
      var head := if a[0].timestamp > t then [a[0]] else [];
      assert Pending(a + b, t) == head + (Pending(a[1..], t) + Pending(b, t));
      assert Pending(a, t) == head + Pending(a[1..], t);
    }
  }

  /** Every event is either due or pending. */
  lemma {:induction false} DuePendingSplit(q: seq<Event>, t: int)
    ensures multiset(q) == multiset(Due(q, t)) + multiset(Pending(q, t))
  {
    if q != [] {
      DuePendingSplit(q[1..], t);
      assert q == [q[0]] + q[1..];
    }
  }

  /** Taking a due event out of the queue leaves the pending events as they were. */
  lemma PopDue(q: seq<Event>, k: nat, t: int)
    requires k < |q| && q[k].timestamp <= t
    ensures Pending(q[..k] + q[k + 1..], t) == Pending(q, t)
    ensures multiset(Due(q, t)) == multiset(Due(q[..k] + q[k + 1..], t)) + multiset{q[k]}
  {
    var a, b := q[..k], q[k + 1..];
    assert q == a + ([q[k]] + b);
    assert ([q[k]] + b)[0] == q[k] && ([q[k]] + b)[1..] == b;
    PopPending(a, q[k], b, t);
    PopDueOne(a, q[k], b, t);
  }

  lemma PopPending(a: seq<Event>, x: Event, b: seq<Event>, t: int)
    requires x.timestamp <= t
    ensures Pending(a + b, t) == Pending(a + ([x] + b), t)
  {
    assert ([x] + b)[0] == x && ([x] + b)[1..] == b;
    assert Pending([x] + b, t) == Pending(b, t);
    PendingAppend(a, [x] + b, t);
    PendingAppend(a, b, t);
  }

  lemma PopDueOne(a: seq<Event>, x: Event, b: seq<Event>, t: int)
    requires x.timestamp <= t
    ensures multiset(Due(a + ([x] + b), t)) == multiset(Due(a + b, t)) + multiset{x}
  {
    assert ([x] + b)[0] == x && ([x] + b)[1..] == b;
    assert Due([x] + b, t) == [x] + Due(b, t);
    DueAppend(a, [x] + b, t);
    DueAppend(a, b, t);
  }

  /** A queue with nothing due is all pending. */
  lemma {:induction false} NothingDue(q: seq<Event>, t: int)
    requires forall i :: 0 <= i < |q| ==> q[i].timestamp > t
    ensures Pending(q, t) == q && Due(q, t) == []
  {
    if q != [] {
      NothingDue(q[1..], t);
    }
  }

  /** What stays pending after `t1` and then after a later `t2` is what is pending after `t2`; what falls due
      in between completes what was due at `t1`. */
  lemma PendingLater(q: seq<Event>, t1: int, t2: int)
    requires t1 <= t2
    ensures Pending(Pending(q, t1), t2) == Pending(q, t2)
    ensures multiset(Due(q, t1)) + multiset(Due(Pending(q, t1), t2)) == multiset(Due(q, t2))
  {
    PendingTwice(q, t1, t2);
    DueInBetween(q, t1, t2);
  }

  lemma {:induction false} PendingTwice(q: seq<Event>, t1: int, t2: int)
    requires t1 <= t2
    ensures Pending(Pending(q, t1), t2) == Pending(q, t2)
  {
    if q != [] {
      var x, rest := q[0], q[1..];
      PendingTwice(rest, t1, t2);
      var head := if x.timestamp > t1 then [x] else [];
      assert Pending(q, t1) == head + Pending(rest, t1);
      PendingAppend(head, Pending(rest, t1), t2);
      assert Pending(head, t2) == if x.timestamp > t2 then [x] else [];
    }
  }

  lemma {:induction false} DueInBetween(q: seq<Event>, t1: int, t2: int)
    requires t1 <= t2
    ensures multiset(Due(q, t1)) + multiset(Due(Pending(q, t1), t2)) == multiset(Due(q, t2))
  {
    if q != [] {
      var x, rest := q[0], q[1..];
      var h1, hp, h2 := if x.timestamp <= t1 then [x] else [], if x.timestamp > t1 then [x] else [],
                        if x.timestamp <= t2 then [x] else [];
      calc {
        multiset(Due(q, t1)) + multiset(Due(Pending(q, t1), t2));
        { assert Pending(q, t1) == hp + Pending(rest, t1);
          DueAppend(hp, Pending(rest, t1), t2); }
        multiset(h1 + Due(rest, t1)) + multiset(Due(hp, t2) + Due(Pending(rest, t1), t2));
        (multiset(h1) + multiset(Due(hp, t2))) + (multiset(Due(rest, t1)) + multiset(Due(Pending(rest, t1), t2)));
        { HeadInBetween(x, t1, t2);
          DueInBetween(rest, t1, t2); }
        multiset(h2) + multiset(Due(rest, t2));
        multiset(Due(q, t2));
      }
    }
  }

  lemma HeadInBetween(x: Event, t1: int, t2: int)
    requires t1 <= t2
    ensures multiset(if x.timestamp <= t1 then [x] else []) + multiset(Due(if x.timestamp > t1 then [x] else [], t2))
            == multiset(if x.timestamp <= t2 then [x] else [])
  {
    if x.timestamp > t1 {
      assert Due([x], t2) == (if x.timestamp <= t2 then [x] else []) + Due([], t2);
    }
  }

  /** Events in order of their timestamps: none is before one that precedes it. */
  ghost predicate TimeOrdered(s: seq<Event>) {
    forall i, j :: 0 <= i < j < |s| ==> !Before(s[j], s[i])
  }

  lemma OrderedAppend(a: seq<Event>, b: seq<Event>)
    requires TimeOrdered(a) && TimeOrdered(b)
    requires forall x, y :: x in a && y in b ==> x.timestamp <= y.timestamp
    ensures TimeOrdered(a + b)
  {
    forall i, j | 0 <= i < j < |a + b| ensures !Before((a + b)[j], (a + b)[i]) {
      if j < |a| {
        assert (a + b)[i] == a[i] && (a + b)[j] == a[j];
      } else if i < |a| {
        assert (a + b)[i] in a && (a + b)[j] in b;
      } else {
        assert (a + b)[i] == b[i - |a|] && (a + b)[j] == b[j - |a|];
      }
    }
  }

  /** The first of the earliest events of a non-empty queue, found by a scan. */
  method FindEarliest(q: seq<Event>) returns (k: nat)
    requires q != []
    ensures k == Earliest(q)
  {
    k := 0;
    var i := 1;
    while i < |q|
      invariant 1 <= i <= |q| && k == Earliest(q[..i])
    {
      assert q[..i + 1][..i] == q[..i];
      if Before(q[i], q[k]) {
        k := i;
      }
      i := i + 1;
    }
    assert q[..i] == q;
  }

  // ---------------------------------------------------------------------------------------------
  // Market events

  /** The exception handling a market event raises: reading the fields of something that is not a
      dictionary, or a price shock or volatility change without the fields it logs. Other market events are
      ignored. */
  function MarketEventError(data: Payload): (r: Option<PyError>)
    ensures r.Some? ==> r.value == AttributeError || r.value == KeyError
  {
    if data.OrderData? then Some(AttributeError)
    else
      var fields := data.fields;
      var kind := if "type" in fields then Some(fields["type"]) else None;
      if kind == Some("price_shock") then
        if "symbol" in fields && "magnitude" in fields then None else Some(KeyError)
      else if kind == Some("volatility_change") then
        if "symbol" in fields && "new_volatility" in fields then None else Some(KeyError)
      else None
  }

  /** The exception an event other than an order raises: a market event as above, an order event whose
      payload is not an order, and nothing for an event of any other type. */
  function EventError(e: Event): Option<PyError> {
    if e.eventType == "order" then (if e.data.Fields? then Some(AttributeError) else None)
    else if e.eventType == "market_event" then MarketEventError(e.data)
    else None
  }

  // ---------------------------------------------------------------------------------------------
  // What the agents are told

  /** A strategy after hearing the trades `ts` in turn. */
  function AllHeard(p: Params, symbols: seq<string>, m: Maker, ts: seq<Trade>): (r: Maker)
    requires GoodMaker(p, symbols, m)
    ensures GoodMaker(p, symbols, r)
    decreases |ts|
  {
    if ts == [] then m
    else
      var prev := AllHeard(p, symbols, m, ts[..|ts| - 1]);
      TradeKeepsGood(p, symbols, prev, ts[|ts| - 1]);
      TradeHeard(p, symbols, prev, ts[|ts| - 1])
  }

  /** The prices of the trades in `symbol`, in order. */
  function PricesIn(ts: seq<Trade>, symbol: string): seq<Option<real>> {
    if ts == [] then []
    else PricesIn(ts[..|ts| - 1], symbol) + (if ts[|ts| - 1].symbol == symbol then [ts[|ts| - 1].price] else [])
  }

  lemma LastOfLast(a: seq<Option<real>>, x: Option<real>, w: nat)
    requires w > 0
    ensures PyLast(PyLast(a, w) + [x], w) == PyLast(a + [x], w)
  {
    if |a| >= w {
      var b := PyLast(a, w) + [x];
      assert b[1..] == a[|a| - w + 1..] + [x];
      assert (a + [x])[|a| + 1 - w..] == a[|a| - w + 1..] + [x];
    }
  }

  /** Hearing trades changes only the samples: each symbol of the strategy keeps, within its window, the
      samples it had followed by the prices of the trades in that symbol, in the order they were heard. */
  lemma HeardSamples(p: Params, symbols: seq<string>, m: Maker, ts: seq<Trade>)
    requires GoodMaker(p, symbols, m) && Window(p) > 0
    ensures var r := AllHeard(p, symbols, m, ts);
            && r.ledger == m.ledger && r.quotes == m.quotes && r.lastOrderUpdate == m.lastOrderUpdate
            && forall s :: s in symbols ==> r.lastPrices[s] == PyLast(m.lastPrices[s] + PricesIn(ts, s), Window(p))
  {
    HeardKeeps(p, symbols, m, ts);
    forall s | s in symbols
      ensures AllHeard(p, symbols, m, ts).lastPrices[s] == PyLast(m.lastPrices[s] + PricesIn(ts, s), Window(p))
    {
      HeardSamplesOf(p, symbols, m, ts, s);
    }
  }

  lemma {:induction false} HeardKeeps(p: Params, symbols: seq<string>, m: Maker, ts: seq<Trade>)
    requires GoodMaker(p, symbols, m)
    ensures var r := AllHeard(p, symbols, m, ts);
            r.ledger == m.ledger && r.quotes == m.quotes && r.lastOrderUpdate == m.lastOrderUpdate
    decreases |ts|
  {
    if ts != [] {
      HeardKeeps(p, symbols, m, ts[..|ts| - 1]);
    }
  }

  lemma {:induction false} HeardSamplesOf(p: Params, symbols: seq<string>, m: Maker, ts: seq<Trade>, s: string)
    requires GoodMaker(p, symbols, m) && Window(p) > 0 && s in symbols
    ensures AllHeard(p, symbols, m, ts).lastPrices[s] == PyLast(m.lastPrices[s] + PricesIn(ts, s), Window(p))
    decreases |ts|
  {
    if ts == [] {
      assert PricesIn(ts, s) == [] && m.lastPrices[s] + [] == m.lastPrices[s];
      assert |m.lastPrices[s]| <= Window(p);
    } else {
      var init, t := ts[..|ts| - 1], ts[|ts| - 1];
      HeardSamplesOf(p, symbols, m, init, s);
      var prev := AllHeard(p, symbols, m, init);
      var before := m.lastPrices[s] + PricesIn(init, s);
      var heard := if t.symbol == s then [t.price] else [];
      PricesInStep(ts, s);
      assert m.lastPrices[s] + (PricesIn(init, s) + heard) == before + heard;
      HeardStep(p, symbols, prev, t, s, before);
    }
  }

  lemma PricesInStep(ts: seq<Trade>, s: string)
    requires ts != []
    ensures PricesIn(ts, s) == PricesIn(ts[..|ts| - 1], s) + (if ts[|ts| - 1].symbol == s then [ts[|ts| - 1].price] else [])
  {
  }

  /** One trade extends the windowed samples of its own symbol by its price and leaves the others alone. */
  lemma HeardStep(p: Params, symbols: seq<string>, prev: Maker, t: Trade, s: string, before: seq<Option<real>>)
    requires GoodMaker(p, symbols, prev) && Window(p) > 0 && s in symbols
    requires prev.lastPrices[s] == PyLast(before, Window(p))
    ensures TradeHeard(p, symbols, prev, t).lastPrices[s]
            == PyLast(before + (if t.symbol == s then [t.price] else []), Window(p))
  {
    var w := Window(p);
    if t.symbol == s {
      var kept := PyLast(before, w);
      assert |kept| <= w;
      assert Pushed(p, kept, t.price) == PyLast(kept + [t.price], w);
      LastOfLast(before, t.price, w);
    } else {
      assert before + [] == before;
    }
  }

  /** The readings the run takes from outside the model, per simulated time: the wall clock, and for a
      strategy and a symbol the volatility estimate of the numerical library and the fresh ids of the two
      quotes it might place. */
  datatype Oracle = Oracle(clock: int -> int, volatility: (int, string, string) -> real,
                           quoteIds: (int, string, string) -> (nat, nat))

  /** A strategy told of the snapshot of `symbol` at simulated time `t`. */
  function BookSeen(p: Params, symbols: seq<string>, m: Maker, symbol: string, snap: Snapshot, t: int, id: string,
                    o: Oracle): (r: Outcome<Maker>)
    requires GoodMaker(p, symbols, m)
    ensures GoodMaker(p, symbols, r.Final())
  {
    var ids := o.quoteIds(t, id, symbol);
    BookUpdateKeepsGood(p, symbols, m, symbol, snap.bids, snap.asks, o.clock(t), o.volatility(t, id, symbol), ids.0, ids.1);
    BookUpdated(p, symbols, m, symbol, snap.bids, snap.asks, o.clock(t), o.volatility(t, id, symbol), ids.0, ids.1)
  }

  // ---------------------------------------------------------------------------------------------
  // Snapshots and metrics

  /** The depth of the snapshots the engine takes. */
  const SnapshotDepth := 10

  /** The snapshot of every exchange, in the order of `symbols`, from the snapshot `books` gives each symbol;
      the first that cannot be taken raises. */
  function Snapshots(symbols: seq<string>, books: map<string, Result<Snapshot>>): (r: Result<seq<(string, Snapshot)>>)
    requires forall s :: s in symbols ==> s in books
    ensures r.Ok? ==> |r.value| == |symbols|
    ensures r.Ok? ==> forall i :: 0 <= i < |symbols| ==> r.value[i].0 == symbols[i] && books[symbols[i]] == Ok(r.value[i].1)
    ensures r.Err? ==> exists s :: s in symbols && books[s] == Err(r.error)
    decreases |symbols|
  {
    if symbols == [] then Ok([])
    else
      var init, s := symbols[..|symbols| - 1], symbols[|symbols| - 1];
      var prev := Snapshots(init, books);
      if prev.Err? then
        assert forall x :: x in init ==> x in symbols;
        prev
      else if books[s].Err? then Err(books[s].error)
      else
        var r := prev.value + [(s, books[s].value)];
        assert forall i :: 0 <= i < |init| ==> r[i] == prev.value[i] && init[i] == symbols[i];
        Ok(r)
  }

  /** One order book snapshot, as recorded. */
  datatype BookRecord = BookRecord(timestamp: int, symbol: string, bids: seq<Level>, asks: seq<Level>)

  /** One market metric: the best prices, the spread in price and in percent of the bid, and the volume on
      each side. */
  datatype MarketMetric = MarketMetric(timestamp: int, symbol: string, bid: real, ask: real, spread: real,
                                       spreadPct: real, bidVolume: real, askVolume: real)

  /** The three metrics lists. */
  datatype Metrics = Metrics(snapshots: seq<BookRecord>, agentMetrics: seq<Summary>, marketMetrics: seq<MarketMetric>)

  /** The snapshots as recorded at simulated time `t`. */
  function Records(t: int, snaps: seq<(string, Snapshot)>): (r: seq<BookRecord>)
    ensures |r| == |snaps|
    ensures forall i :: 0 <= i < |snaps| ==> r[i] == BookRecord(t, snaps[i].0, snaps[i].1.bids, snaps[i].1.asks)
  {
    seq(|snaps|, i requires 0 <= i < |snaps| => BookRecord(t, snaps[i].0, snaps[i].1.bids, snaps[i].1.asks))
  }

  /** One more snapshot recorded. */
  lemma RecordsNext(t: int, xs: seq<Result<(string, Snapshot)>>, j: nat)
    requires j < |xs| && AllOk(xs[..j + 1])
    ensures AllOk(xs[..j])
    ensures Records(t, Oks(xs[..j + 1])) == Records(t, Oks(xs[..j])) + [BookRecord(t, xs[j].value.0, xs[j].value.1.bids, xs[j].value.1.asks)]
  {
    assert xs[..j + 1][..j] == xs[..j];
    OksStep(xs[..j + 1]);
  }

  /** A level price read as a decimal: an absent price reads as the text "None", which is no number. */
  function AsDecimal(x: Option<real>): (r: Result<real>)
    ensures r.Ok? <==> x.Some?
    ensures r.Ok? ==> r.value == x.value
    ensures r.Err? ==> r.error == DecimalInvalidOperation
  {
    if x.Some? then Ok(x.value) else Err(DecimalInvalidOperation)
  }

  /** Both sides of the snapshot have a level. */
  predicate TwoSided(snap: Snapshot) {
    snap.bids != [] && snap.asks != []
  }

  /** The prices with the mid price of a two-sided snapshot of `symbol` added: the best bid, then the best ask,
      are read as decimals. A snapshot with an empty side adds nothing. */
  function WithPrice(prices: map<string, real>, symbol: string, snap: Snapshot): Result<map<string, real>> {
    if !TwoSided(snap) then Ok(prices)
    else
      var bid := AsDecimal(snap.bids[0].0);
      var ask := AsDecimal(snap.asks[0].0);
      if bid.Err? then Err(bid.error)
      else if ask.Err? then Err(ask.error)
      else Ok(prices[symbol := MidPrice(bid.value, ask.value)])
  }

  /** The current prices: the mid price of every two-sided snapshot. */
  function CurrentPrices(snaps: seq<(string, Snapshot)>): Result<map<string, real>>
    decreases |snaps|
  {
    if snaps == [] then Ok(map[])
    else
      var prev := CurrentPrices(snaps[..|snaps| - 1]);
      if prev.Err? then prev else WithPrice(prev.value, snaps[|snaps| - 1].0, snaps[|snaps| - 1].1)
  }

  /** The current prices as the loop over the exchanges finds them, taking each snapshot from `books` just
      before its price: the first snapshot or price that cannot be read raises. */
  function PriceScan(symbols: seq<string>, books: map<string, Result<Snapshot>>): Result<map<string, real>>
    requires forall s :: s in symbols ==> s in books
    decreases |symbols|
  {
    if symbols == [] then Ok(map[])
    else
      var init, s := symbols[..|symbols| - 1], symbols[|symbols| - 1];
      assert forall x :: x in init ==> x in symbols;
      var prev := PriceScan(init, books);
      if prev.Err? then prev
      else if books[s].Err? then Err(books[s].error)
      else WithPrice(prev.value, s, books[s].value)
  }

  /** Once the scan of the first `n` exchanges has raised, the scan of them all raises the same. */
  lemma {:induction false} PriceScanStops(symbols: seq<string>, books: map<string, Result<Snapshot>>, n: nat)
    requires forall s :: s in symbols ==> s in books
    requires n <= |symbols| && (forall s :: s in symbols[..n] ==> s in books) && PriceScan(symbols[..n], books).Err?
    ensures PriceScan(symbols, books) == PriceScan(symbols[..n], books)
    decreases |symbols|
  {
    if n == |symbols| {
      assert symbols[..n] == symbols;
    } else {
      var init := symbols[..|symbols| - 1];
      assert init[..n] == symbols[..n];
      assert forall x :: x in init ==> x in symbols;
      PriceScanStops(init, books, n);
    }
  }

  /** One more exchange scanned: its snapshot or its price raises for the whole scan, or extends the prices. */
  lemma PriceScanNext(symbols: seq<string>, books: map<string, Result<Snapshot>>, j: nat, prices: map<string, real>)
    requires forall s :: s in symbols ==> s in books
    requires j < |symbols| && (forall s :: s in symbols[..j] ==> s in books) && PriceScan(symbols[..j], books) == Ok(prices)
    ensures books[symbols[j]].Err? ==> PriceScan(symbols, books) == Err(books[symbols[j]].error)
    ensures books[symbols[j]].Ok? ==>
              var next := WithPrice(prices, symbols[j], books[symbols[j]].value);
              && (next.Err? ==> PriceScan(symbols, books) == next)
              && (next.Ok? ==> (forall s :: s in symbols[..j + 1] ==> s in books) && PriceScan(symbols[..j + 1], books) == next)
  {
    var upto := symbols[..j + 1];
    assert upto[..j] == symbols[..j] && upto[j] == symbols[j];
    assert forall s :: s in upto ==> s in books;
    assert PriceScan(upto, books) == if books[symbols[j]].Err? then Err(books[symbols[j]].error)
                                     else WithPrice(prices, symbols[j], books[symbols[j]].value);
    if PriceScan(upto, books).Err? {
      PriceScanStops(symbols, books, j + 1);
    }
  }

  /** Scanning the exchanges finds the current prices of their snapshots; a scan that succeeds has taken every
      snapshot. */
  lemma {:induction false} ScanFindsPrices(symbols: seq<string>, books: map<string, Result<Snapshot>>)
    requires forall s :: s in symbols ==> s in books
    ensures PriceScan(symbols, books).Ok? ==> Snapshots(symbols, books).Ok?
    ensures Snapshots(symbols, books).Ok? ==> PriceScan(symbols, books) == CurrentPrices(Snapshots(symbols, books).value)
    decreases |symbols|
  {
    if symbols != [] {
      var init, s := symbols[..|symbols| - 1], symbols[|symbols| - 1];
      assert forall x :: x in init ==> x in symbols;
      ScanFindsPrices(init, books);
      var all := Snapshots(symbols, books);
      if all.Ok? {
        var snaps := all.value;
        assert Snapshots(init, books).Ok?;
        assert snaps[..|snaps| - 1] == Snapshots(init, books).value;
      }
    }
  }

  /** The symbols of the snapshots are distinct. */
  ghost predicate DistinctSymbols(snaps: seq<(string, Snapshot)>) {
    forall i, j :: 0 <= i < |snaps| && 0 <= j < |snaps| && i != j ==> snaps[i].0 != snaps[j].0
  }

  /** The prices after one more snapshot: its mid price is added when it is two-sided; nothing else changes. */
  lemma PricesStep(snaps: seq<(string, Snapshot)>)
    requires snaps != [] && CurrentPrices(snaps).Ok?
    ensures var prev, last := CurrentPrices(snaps[..|snaps| - 1]), snaps[|snaps| - 1];
            && prev.Ok?
            && (!TwoSided(last.1) ==> CurrentPrices(snaps) == prev)
            && (TwoSided(last.1) ==>
                  && last.1.bids[0].0.Some? && last.1.asks[0].0.Some?
                  && CurrentPrices(snaps).value
                     == prev.value[last.0 := MidPrice(last.1.bids[0].0.value, last.1.asks[0].0.value)])
  {
  }

  /** A price is known exactly for the symbols whose snapshot is two-sided, and it is the mid price between
      the best bid and the best ask; a two-sided snapshot with an absent best price raises. */
  lemma {:induction false} PricesAreMids(snaps: seq<(string, Snapshot)>)
    requires DistinctSymbols(snaps) && CurrentPrices(snaps).Ok?
    ensures var prices := CurrentPrices(snaps).value;
            forall i :: 0 <= i < |snaps| ==>
              && (snaps[i].0 in prices <==> TwoSided(snaps[i].1))
              && (TwoSided(snaps[i].1) ==> && snaps[i].1.bids[0].0.Some? && snaps[i].1.asks[0].0.Some?
                                           && prices[snaps[i].0]
                                              == MidPrice(snaps[i].1.bids[0].0.value, snaps[i].1.asks[0].0.value))
    decreases |snaps|
  {
    if snaps != [] {
      var init, last := snaps[..|snaps| - 1], snaps[|snaps| - 1];
      assert forall i :: 0 <= i < |init| ==> init[i] == snaps[i] && snaps[i].0 != last.0;
      assert DistinctSymbols(init);
      PricesStep(snaps);
      PricesAreMids(init);
      PricesOnlyOfSnapshots(init);
      var prev, prices := CurrentPrices(init).value, CurrentPrices(snaps).value;
      assert last.0 !in prev;
      forall i | 0 <= i < |snaps|
        ensures && (snaps[i].0 in prices <==> TwoSided(snaps[i].1))
                && (TwoSided(snaps[i].1) ==> && snaps[i].1.bids[0].0.Some? && snaps[i].1.asks[0].0.Some?
                                             && prices[snaps[i].0]
                                                == MidPrice(snaps[i].1.bids[0].0.value, snaps[i].1.asks[0].0.value))
      {
        if i < |init| {
          assert init[i] == snaps[i] && snaps[i].0 != last.0;
          assert snaps[i].0 in prices <==> snaps[i].0 in prev;
        }
      }
    }
  }

  /** Only the symbols of the snapshots get a price. */
  lemma {:induction false} PricesOnlyOfSnapshots(snaps: seq<(string, Snapshot)>)
    requires CurrentPrices(snaps).Ok?
    ensures forall s :: s in CurrentPrices(snaps).value ==> exists i :: 0 <= i < |snaps| && snaps[i].0 == s
    decreases |snaps|
  {
    if snaps != [] {
      var init, last := snaps[..|snaps| - 1], snaps[|snaps| - 1];
      PricesStep(snaps);
      PricesOnlyOfSnapshots(init);
      forall s | s in CurrentPrices(snaps).value ensures exists i :: 0 <= i < |snaps| && snaps[i].0 == s {
        if s != last.0 {
          var i :| 0 <= i < |init| && init[i].0 == s;
          assert snaps[i].0 == s;
        } else {
          assert snaps[|snaps| - 1].0 == s;
        }
      }
    }
  }

  /** The summed quantity of the levels of one side. */
  function Volume(levels: seq<Level>): real
    decreases |levels|
  {
    if levels == [] then 0.0 else Volume(levels[..|levels| - 1]) + levels[|levels| - 1].1
  }

  /** The market metric of a two-sided snapshot: the spread is the best ask less the best bid and the spread
      percentage divides it by the bid, as decimals; none for a snapshot with an empty side. */
  function MetricOf(t: int, symbol: string, snap: Snapshot): Result<Option<MarketMetric>> {
    if !TwoSided(snap) then Ok(None)
    else
      var ask := AsDecimal(snap.asks[0].0);
      var bid := AsDecimal(snap.bids[0].0);
      if ask.Err? then Err(ask.error)
      else if bid.Err? then Err(bid.error)
      else
        var spread := ask.value - bid.value;
        var share := DecimalQuotient(spread, bid.value);
        if share.Err? then Err(share.error)
        else Ok(Some(MarketMetric(t, symbol, bid.value, ask.value, spread, share.value * 100.0,
                                  Volume(snap.bids), Volume(snap.asks))))
  }

  /** The market metrics of the snapshots, in order; the first exception stops them, leaving those appended
      before it. */
  function MarketMetrics(t: int, snaps: seq<(string, Snapshot)>): Outcome<seq<MarketMetric>>
    decreases |snaps|
  {
    if snaps == [] then Done([])
    else
      var prev := MarketMetrics(t, snaps[..|snaps| - 1]);
      var m := MetricOf(t, snaps[|snaps| - 1].0, snaps[|snaps| - 1].1);
      if prev.Raised? then prev
      else if m.Err? then Raised(m.error, prev.value)
      else Done(prev.value + if m.value.Some? then [m.value.value] else [])
  }

  /** Once the market metrics of the first `n` snapshots have raised, those of them all raise the same. */
  lemma {:induction false} MarketMetricsStop(t: int, snaps: seq<(string, Snapshot)>, n: nat)
    requires n <= |snaps| && MarketMetrics(t, snaps[..n]).Raised?
    ensures MarketMetrics(t, snaps) == MarketMetrics(t, snaps[..n])
    decreases |snaps|
  {
    if n == |snaps| {
      assert snaps[..n] == snaps;
    } else {
      var init := snaps[..|snaps| - 1];
      assert init[..n] == snaps[..n];
      MarketMetricsStop(t, init, n);
    }
  }

  /** One more snapshot measured: its metric raises for them all, or extends the metrics found so far. */
  lemma MarketMetricsNext(t: int, snaps: seq<(string, Snapshot)>, j: nat, ms: seq<MarketMetric>)
    requires j < |snaps| && MarketMetrics(t, snaps[..j]) == Done(ms)
    ensures var m := MetricOf(t, snaps[j].0, snaps[j].1);
            && (m.Err? ==> MarketMetrics(t, snaps) == Raised(m.error, ms))
            && (m.Ok? ==> MarketMetrics(t, snaps[..j + 1]) == Done(ms + if m.value.Some? then [m.value.value] else []))
  {
    assert snaps[..j + 1][..j] == snaps[..j];
    if MetricOf(t, snaps[j].0, snaps[j].1).Err? {
      MarketMetricsStop(t, snaps, j + 1);
    }
  }

  /** The market metric of a two-sided snapshot with a non-zero best bid, as the source computes it. */
  ghost predicate Measures(m: MarketMetric, t: int, symbol: string, snap: Snapshot)
    requires TwoSided(snap)
  {
    && m.timestamp == t && m.symbol == symbol
    && snap.bids[0].0 == Some(m.bid) && snap.asks[0].0 == Some(m.ask)
    && m.spread == m.ask - m.bid && m.bid != 0.0 && m.spreadPct * m.bid == m.spread * 100.0
    && m.bidVolume == Volume(snap.bids) && m.askVolume == Volume(snap.asks)
  }

  lemma MetricMeasures(t: int, symbol: string, snap: Snapshot)
    requires MetricOf(t, symbol, snap).Ok?
    ensures MetricOf(t, symbol, snap).value.Some? <==> TwoSided(snap)
    ensures TwoSided(snap) ==> Measures(MetricOf(t, symbol, snap).value.value, t, symbol, snap)
  {
    if TwoSided(snap) {
      var m := MetricOf(t, symbol, snap).value.value;
      var share := DecimalQuotient(m.spread, m.bid).value;
      assert share * m.bid == m.spread;
      assert m.spreadPct * m.bid == share * m.bid * 100.0;
    }
  }

  /** There is one market metric for every two-sided snapshot, in order: it is stamped with the step's time,
      carries the best bid and ask, a spread of the ask less the bid, a spread percentage that is the spread
      as a share of the bid times 100, and the summed volume of each side. */
  lemma {:induction false} MetricsMeasureSpread(t: int, snaps: seq<(string, Snapshot)>)
    requires MarketMetrics(t, snaps).Done?
    ensures var ms, two := MarketMetrics(t, snaps).value, TwoSidedOnes(snaps);
            && |ms| == |two|
            && forall k :: 0 <= k < |ms| ==> Measures(ms[k], t, two[k].0, two[k].1)
    decreases |snaps|
  {
    if snaps != [] {
      var init, last := snaps[..|snaps| - 1], snaps[|snaps| - 1];
      MetricsMeasureSpread(t, init);
      MetricMeasures(t, last.0, last.1);
      var ms, two := MarketMetrics(t, snaps).value, TwoSidedOnes(snaps);
      var ms0, two0 := MarketMetrics(t, init).value, TwoSidedOnes(init);
      if TwoSided(last.1) {
        assert ms == ms0 + [MetricOf(t, last.0, last.1).value.value] && two == two0 + [last];
        assert forall k :: 0 <= k < |ms0| ==> ms[k] == ms0[k] && two[k] == two0[k];
      } else {
        assert ms == ms0 + [] && two == two0 + [];
      }
    }
  }

  /** The two-sided snapshots, in order. */
  function TwoSidedOnes(snaps: seq<(string, Snapshot)>): (r: seq<(string, Snapshot)>)
    ensures forall k :: 0 <= k < |r| ==> TwoSided(r[k].1)
    decreases |snaps|
  {
    if snaps == [] then []
    else TwoSidedOnes(snaps[..|snaps| - 1]) + if TwoSided(snaps[|snaps| - 1].1) then [snaps[|snaps| - 1]] else []
  }

  // ---------------------------------------------------------------------------------------------
  // The strategies of a run

  /** A strategy as the run holds it: its agent's id, its settings, its symbols and its state. */
  datatype Strategy = Strategy(id: string, params: Params, symbols: seq<string>, maker: Maker)

  ghost predicate GoodStrategy(st: Strategy) {
    GoodMaker(st.params, st.symbols, st.maker)
  }

  ghost predicate AllGood(ss: seq<Strategy>) {
    forall i :: 0 <= i < |ss| ==> GoodStrategy(ss[i])
  }

  /** The same agent with the same settings, possibly in another state. */
  predicate SameAgent(a: Strategy, b: Strategy) {
    a.id == b.id && a.params == b.params && a.symbols == b.symbols
  }

  /** A strategy after hearing the trades `ts` in turn; one that is not well formed, which no strategy of a
      well-formed run is, is left alone. */
  ghost function Heard(st: Strategy, ts: seq<Trade>): (r: Strategy)
    ensures SameAgent(st, r) && (GoodStrategy(st) ==> GoodStrategy(r))
  {
    if GoodStrategy(st) then st.(maker := AllHeard(st.params, st.symbols, st.maker, ts)) else st
  }

  /** Hearing one more trade is what the strategy's trade handler does with it. */
  lemma HeardOneMore(st: Strategy, ts: seq<Trade>, t: Trade)
    requires GoodStrategy(st)
    ensures Heard(st, ts + [t]) == Heard(st, ts).(maker := TradeHeard(st.params, st.symbols, Heard(st, ts).maker, t))
  {
    assert (ts + [t])[..|ts|] == ts;
  }

  /** Hearing one trade is what the strategy's trade handler does with it. */
  lemma HeardOne(st: Strategy, t: Trade)
    requires GoodStrategy(st)
    ensures Heard(st, [t]) == st.(maker := TradeHeard(st.params, st.symbols, st.maker, t))
  {
    HeardOneMore(st, [], t);
    assert [] + [t] == [t];
  }

  /** Hearing the trades `ts` and then `t` is hearing `ts + [t]`. */
  lemma HeardThen(st: Strategy, ts: seq<Trade>, t: Trade)
    requires GoodStrategy(st)
    ensures Heard(Heard(st, ts), [t]) == Heard(st, ts + [t])
  {
    HeardOneMore(st, ts, t);
    HeardOne(Heard(st, ts), t);
  }

  /** Every strategy after hearing the trades `ts`. */
  ghost function HeardBy(ss: seq<Strategy>, ts: seq<Trade>): (r: seq<Strategy>)
    ensures |r| == |ss|
  {
    seq(|ss|, i requires 0 <= i < |ss| => Heard(ss[i], ts))
  }

  /** The strategies up to `i + 1` after hearing `ts` are those up to `i` followed by the next one. */
  lemma HeardByNext(ss: seq<Strategy>, i: nat, ts: seq<Trade>)
    requires i < |ss|
    ensures HeardBy(ss[..i + 1], ts) == HeardBy(ss[..i], ts) + [Heard(ss[i], ts)]
  {
  }

  /** Every strategy hearing the trades `ts` and then `t` is every strategy hearing `ts + [t]`. */
  lemma HeardByThen(ss: seq<Strategy>, ts: seq<Trade>, t: Trade)
    requires AllGood(ss)
    ensures HeardBy(HeardBy(ss, ts), [t]) == HeardBy(ss, ts + [t])
  {
    forall i | 0 <= i < |ss| ensures Heard(Heard(ss[i], ts), [t]) == Heard(ss[i], ts + [t]) {
      HeardThen(ss[i], ts, t);
    }
  }

  /** A strategy after withdrawing its stale quotes at `now`; one that is not well formed is left alone. */
  ghost function Swept(st: Strategy, now: int): (r: Strategy)
    ensures SameAgent(st, r) && (GoodStrategy(st) ==> GoodStrategy(r))
  {
    if GoodStrategy(st) then
      SweepKeepsGood(st.params, st.symbols, st.maker, now);
      st.(maker := StaleSwept(st.symbols, st.maker, now))
    else st
  }

  /** Every strategy after withdrawing its stale quotes at `now`. */
  ghost function SweptBy(ss: seq<Strategy>, now: int): (r: seq<Strategy>)
    ensures |r| == |ss|
  {
    seq(|ss|, i requires 0 <= i < |ss| => Swept(ss[i], now))
  }

  /** The strategies up to `i + 1` after the sweep at `now` are those up to `i` followed by the next one. */
  lemma SweptByNext(ss: seq<Strategy>, i: nat, now: int)
    requires i < |ss|
    ensures SweptBy(ss[..i + 1], now) == SweptBy(ss[..i], now) + [Swept(ss[i], now)]
  {
  }

  /** `s` told the items `xs` in turn by `step`; the first exception stops it. */
  function Fold<S, X>(s: S, xs: seq<X>, step: (S, X) -> Outcome<S>): Outcome<S>
    decreases |xs|
  {
    if xs == [] then Done(s)
    else
      var prev := Fold(s, xs[..|xs| - 1], step);
      if prev.Raised? then prev else step(prev.value, xs[|xs| - 1])
  }

  lemma FoldStep<S, X>(s: S, xs: seq<X>, x: X, step: (S, X) -> Outcome<S>)
    ensures Fold(s, xs + [x], step) == if Fold(s, xs, step).Raised? then Fold(s, xs, step) else step(Fold(s, xs, step).value, x)
  {
    assert (xs + [x])[..|xs|] == xs;
  }

  /** Telling one item, as a way of telling a value. */
  function Teller<S, X>(step: (S, X) -> Outcome<S>, x: X): S -> Outcome<S> {
    s => step(s, x)
  }

  /** The values told something in turn; the first exception stops the telling, and the values after it are
      left as they were. */
  function TellAll<S>(ss: seq<S>, tell: S -> Outcome<S>): (r: Outcome<seq<S>>)
    ensures |r.Final()| == |ss|
    decreases |ss|
  {
    if ss == [] then Done([])
    else
      var prev := TellAll(ss[..|ss| - 1], tell);
      var last := ss[|ss| - 1];
      var r := prev.Final() + [if prev.Raised? then last else tell(last).Final()];
      if prev.Raised? then Raised(prev.error, r)
      else if tell(last).Raised? then Raised(tell(last).error, r)
      else Done(r)
  }

  /** One more value told: the telling goes on when it did so far, and stops at the first exception. */
  lemma TellStep<S>(ss: seq<S>, tell: S -> Outcome<S>)
    requires ss != []
    ensures var prev, last := TellAll(ss[..|ss| - 1], tell), ss[|ss| - 1];
            && (TellAll(ss, tell).Done? <==> prev.Done? && tell(last).Done?)
            && TellAll(ss, tell).Final() == prev.Final() + [if prev.Raised? then last else tell(last).Final()]
            && TellAll(ss, tell).Failure() == if prev.Raised? then prev.Failure() else tell(last).Failure()
  {
  }

  /** Telling the values in turn succeeds exactly when each of them takes it without raising. */
  lemma {:induction false} TellAllDone<S>(ss: seq<S>, tell: S -> Outcome<S>)
    ensures TellAll(ss, tell).Done? <==> forall i :: 0 <= i < |ss| ==> tell(ss[i]).Done?
    decreases |ss|
  {
    if ss != [] {
      var init, last := ss[..|ss| - 1], ss[|ss| - 1];
      TellAllDone(init, tell);
      TellStep(ss, tell);
      if TellAll(init, tell).Done? && tell(last).Done? {
        forall i | 0 <= i < |ss| ensures tell(ss[i]).Done? {
          if i < |init| {
            assert init[i] == ss[i];
          }
        }
      } else if TellAll(init, tell).Raised? {
        var i :| 0 <= i < |init| && !tell(init[i]).Done?;
        assert init[i] == ss[i];
      }
    }
  }

  /** Once the telling succeeds, each value is what being told alone would make it. */
  lemma {:induction false} TellAllIsEach<S>(ss: seq<S>, tell: S -> Outcome<S>)
    requires TellAll(ss, tell).Done?
    ensures forall i :: 0 <= i < |ss| ==> TellAll(ss, tell).value[i] == tell(ss[i]).Final()
    decreases |ss|
  {
    if ss != [] {
      var init, last := ss[..|ss| - 1], ss[|ss| - 1];
      TellStep(ss, tell);
      TellAllIsEach(init, tell);
      var prev, r := TellAll(init, tell).value, TellAll(ss, tell).value;
      assert r == prev + [tell(last).Final()];
      forall i | 0 <= i < |ss| ensures r[i] == tell(ss[i]).Final() {
        if i < |init| {
          assert r[i] == prev[i] && init[i] == ss[i];
        }
      }
    }
  }

  /** Once one value raises, those after it are left as they were. */
  lemma {:induction false} TellAllStops<S>(ss: seq<S>, j: nat, tell: S -> Outcome<S>)
    requires j < |ss| && TellAll(ss[..j + 1], tell).Raised?
    ensures var first := TellAll(ss[..j + 1], tell);
            TellAll(ss, tell) == Raised(first.error, first.Final() + ss[j + 1..])
    decreases |ss|
  {
    var first := TellAll(ss[..j + 1], tell);
    if |ss| == j + 1 {
      assert ss[..j + 1] == ss && first.Final() + ss[j + 1..] == first.Final();
    } else {
      var init := ss[..|ss| - 1];
      assert init[..j + 1] == ss[..j + 1];
      TellAllStops(init, j, tell);
      TellStep(ss, tell);
      assert init[j + 1..] + [ss[|ss| - 1]] == ss[j + 1..];
      assert (first.Final() + init[j + 1..]) + [ss[|ss| - 1]] == first.Final() + ss[j + 1..];
    }
  }

  /** The telling, seen from the loop over the values: after the first `i` values have taken it, the next
      one either raises, which stops the telling with the values after it left as they were, or takes it too. */
  lemma TellAllNext<S>(ss: seq<S>, i: nat, done: seq<S>, tell: S -> Outcome<S>)
    requires i < |ss| && TellAll(ss[..i], tell) == Done(done)
    ensures tell(ss[i]).Raised? ==> TellAll(ss, tell) == Raised(tell(ss[i]).error, done + [tell(ss[i]).Final()] + ss[i + 1..])
    ensures tell(ss[i]).Done? ==> TellAll(ss[..i + 1], tell) == Done(done + [tell(ss[i]).value])
  {
    assert ss[..i + 1][..i] == ss[..i];
    TellStep(ss[..i + 1], tell);
    if tell(ss[i]).Raised? {
      TellAllStops(ss, i, tell);
    }
  }

  /** The items are all there. */
  predicate AllOk<X>(xs: seq<Result<X>>) {
    forall k :: 0 <= k < |xs| ==> xs[k].Ok?
  }

  /** The items, once they are all there. */
  function Oks<X>(xs: seq<Result<X>>): (r: seq<X>)
    requires AllOk(xs)
    ensures |r| == |xs| && forall k :: 0 <= k < |xs| ==> xs[k] == Ok(r[k])
  {
    seq(|xs|, k requires 0 <= k < |xs| && AllOk(xs) => xs[k].value)
  }

  /** Every value of `ss` told the items `xs` in turn, item by item: an item that is missing raises before
      anyone hears it, every value hears an item before any hears the next, and the first exception stops the
      telling. The count is the number of items reached. */
  function FoldAll<S, X>(ss: seq<S>, xs: seq<Result<X>>, step: (S, X) -> Outcome<S>): (r: Outcome<(seq<S>, nat)>)
    ensures |r.Final().0| == |ss| && r.Final().1 <= |xs|
    ensures r.Done? ==> r.value.1 == |xs|
    decreases |xs|
  {
    if xs == [] then Done((ss, 0))
    else
      var prev := FoldAll(ss, xs[..|xs| - 1], step);
      var x := xs[|xs| - 1];
      if prev.Raised? then prev
      else if x.Err? then Raised(x.error, prev.value)
      else
        var told := TellAll(prev.value.0, Teller(step, x.value));
        if told.Raised? then Raised(told.error, (told.Final(), |xs|)) else Done((told.value, |xs|))
  }

  /** One more item: it raises when missing, and otherwise every value is told it in turn. */
  lemma FoldAllStep<S, X>(ss: seq<S>, xs: seq<Result<X>>, step: (S, X) -> Outcome<S>)
    requires xs != []
    ensures var prev := FoldAll(ss, xs[..|xs| - 1], step);
            prev.Raised? ==> FoldAll(ss, xs, step) == prev
    ensures var prev, x := FoldAll(ss, xs[..|xs| - 1], step), xs[|xs| - 1];
            prev.Done? && x.Err? ==> FoldAll(ss, xs, step) == Raised(x.error, prev.value)
    ensures var prev, x := FoldAll(ss, xs[..|xs| - 1], step), xs[|xs| - 1];
            prev.Done? && x.Ok? ==>
              var told := TellAll(prev.value.0, Teller(step, x.value));
              FoldAll(ss, xs, step) == if told.Raised? then Raised(told.error, (told.Final(), |xs|)) else Done((told.value, |xs|))
  {
  }

  /** Once the telling has raised on the first `n` items, the items after them change nothing. */
  lemma {:induction false} FoldAllStops<S, X>(ss: seq<S>, xs: seq<Result<X>>, n: nat, step: (S, X) -> Outcome<S>)
    requires n <= |xs| && FoldAll(ss, xs[..n], step).Raised?
    ensures FoldAll(ss, xs, step) == FoldAll(ss, xs[..n], step)
    decreases |xs|
  {
    if n == |xs| {
      assert xs[..n] == xs;
    } else {
      var init := xs[..|xs| - 1];
      assert init[..n] == xs[..n];
      FoldAllStops(ss, init, n, step);
    }
  }

  /** Telling item by item, seen from the loop over the items: after the first `j` items have been told
      without an exception, a missing next item raises and stops the telling; otherwise every value is told
      it, and a value that raises stops the telling too. */
  lemma FoldAllNext<S, X>(ss: seq<S>, xs: seq<Result<X>>, j: nat, cur: seq<S>, step: (S, X) -> Outcome<S>)
    requires j < |xs| && FoldAll(ss, xs[..j], step) == Done((cur, j)) && AllOk(xs[..j])
    ensures xs[j].Err? ==> FoldAll(ss, xs, step) == Raised(xs[j].error, (cur, j))
    ensures xs[j].Ok? ==> AllOk(xs[..j + 1]) && Oks(xs[..j + 1]) == Oks(xs[..j]) + [xs[j].value]
    ensures xs[j].Ok? ==>
              var told := TellAll(cur, Teller(step, xs[j].value));
              && (told.Raised? ==> FoldAll(ss, xs, step) == Raised(told.error, (told.Final(), j + 1)))
              && (told.Done? ==> FoldAll(ss, xs[..j + 1], step) == Done((told.value, j + 1)))
  {
    assert xs[..j + 1][..j] == xs[..j];
    FoldAllStep(ss, xs[..j + 1], step);
    OksStep(xs[..j + 1]);
    if FoldAll(ss, xs[..j + 1], step).Raised? {
      FoldAllStops(ss, xs, j + 1, step);
    }
  }

  /** The items reached are all there. */
  lemma {:induction false} FoldAllReached<S, X>(ss: seq<S>, xs: seq<Result<X>>, step: (S, X) -> Outcome<S>)
    ensures AllOk(xs[..FoldAll(ss, xs, step).Final().1])
    decreases |xs|
  {
    if xs != [] {
      var init := xs[..|xs| - 1];
      FoldAllReached(ss, init, step);
      var n := FoldAll(ss, init, step).Final().1;
      assert init[..n] == xs[..n];
      if FoldAll(ss, init, step).Done? {
        assert init == xs[..|init|];
      }
    }
  }

  lemma OksStep<X>(xs: seq<Result<X>>)
    requires xs != []
    ensures AllOk(xs) <==> AllOk(xs[..|xs| - 1]) && xs[|xs| - 1].Ok?
    ensures AllOk(xs) ==> Oks(xs) == Oks(xs[..|xs| - 1]) + [xs[|xs| - 1].value]
  {
    var init := xs[..|xs| - 1];
    assert forall k :: 0 <= k < |init| ==> init[k] == xs[k];
    if AllOk(xs) {
      assert Oks(xs) == Oks(init) + [xs[|xs| - 1].value];
    }
  }

  /** Telling every value the items item by item succeeds exactly when all the items are there and each value,
      told them all alone, does not raise. */
  lemma {:induction false} FoldAllDone<S, X>(ss: seq<S>, xs: seq<Result<X>>, step: (S, X) -> Outcome<S>)
    ensures FoldAll(ss, xs, step).Done? ==> AllOk(xs)
    ensures FoldAll(ss, xs, step).Done? <==> AllOk(xs) && forall i :: 0 <= i < |ss| ==> Fold(ss[i], Oks(xs), step).Done?
    ensures FoldAll(ss, xs, step).Done? ==>
              forall i :: 0 <= i < |ss| ==> FoldAll(ss, xs, step).value.0[i] == Fold(ss[i], Oks(xs), step).value
    decreases |xs|
  {
    if xs == [] {
      assert Oks(xs) == [];
    } else {
      var init, x := xs[..|xs| - 1], xs[|xs| - 1];
      FoldAllDone(ss, init, step);
      OksStep(xs);
      var prev := FoldAll(ss, init, step);
      if prev.Raised? {
        if AllOk(xs) {
          var i :| 0 <= i < |ss| && !Fold(ss[i], Oks(init), step).Done?;
          FoldStep(ss[i], Oks(init), x.value, step);
        }
      } else if x.Ok? {
        var tell := Teller(step, x.value);
        TellAllDone(prev.value.0, tell);
        forall i | 0 <= i < |ss|
          ensures Fold(ss[i], Oks(xs), step) == tell(prev.value.0[i])
        {
          FoldStep(ss[i], Oks(init), x.value, step);
        }
        if TellAll(prev.value.0, tell).Done? {
          TellAllIsEach(prev.value.0, tell);
        }
      }
    }
  }

  /** The strategy told of the snapshot of `symbol` at simulated time `t`. */
  function TellBook(st: Strategy, symbol: string, snap: Snapshot, t: int, o: Oracle): (r: Outcome<Strategy>)
    requires GoodStrategy(st)
    ensures GoodStrategy(r.Final()) && SameAgent(st, r.Final())
    ensures r.Final().maker == BookSeen(st.params, st.symbols, st.maker, symbol, snap, t, st.id, o).Final()
    ensures r.Failure() == BookSeen(st.params, st.symbols, st.maker, symbol, snap, t, st.id, o).Failure()
  {
    var seen := BookSeen(st.params, st.symbols, st.maker, symbol, snap, t, st.id, o);
    if seen.Raised? then Raised(seen.error, st.(maker := seen.partial)) else Done(st.(maker := seen.value))
  }

  /** How a strategy takes a snapshot of a symbol, as a step of telling every strategy. */
  type Reaction = (Strategy, (string, Snapshot)) -> Outcome<Strategy>

  /** Telling a strategy of a snapshot at simulated time `t`, as a step; `BookSeen` asks for a well-formed
      strategy, which every strategy of a well-formed simulation is. */
  ghost function BookStep(t: int, o: Oracle): Reaction {
    (st: Strategy, x: (string, Snapshot)) => if GoodStrategy(st) then TellBook(st, x.0, x.1, t, o) else Done(st)
  }

  /** A strategy told of a snapshot at simulated time `t`, as the engine calls it: only a well-formed strategy
      can be told, and every strategy of a well-formed simulation is one. */
  function BookReaction(t: int, o: Oracle): (Strategy, (string, Snapshot)) --> Outcome<Strategy> {
    (st: Strategy, x: (string, Snapshot)) requires GoodStrategy(st) => TellBook(st, x.0, x.1, t, o)
  }

  /** `react` tells every well-formed strategy what `step` tells it. */
  ghost predicate Implements(react: (Strategy, (string, Snapshot)) --> Outcome<Strategy>, step: Reaction) {
    forall st, x :: GoodStrategy(st) ==> react.requires(st, x) && react(st, x) == step(st, x)
  }

  /** `step` keeps every well-formed strategy well formed and the same agent. */
  ghost predicate KeepsGood(step: Reaction) {
    forall st, x :: GoodStrategy(st) ==> GoodStrategy(step(st, x).Final()) && SameAgent(st, step(st, x).Final())
  }

  /** The engine's call of a strategy is the step the run is defined with, and it keeps strategies well formed. */
  lemma BookReactionIsStep(t: int, o: Oracle)
    ensures Implements(BookReaction(t, o), BookStep(t, o)) && KeepsGood(BookStep(t, o))
  {
  }

  /** What `books` gives for each symbol in turn, paired with the symbol. */
  function Taken(symbols: seq<string>, books: map<string, Result<Snapshot>>): (r: seq<Result<(string, Snapshot)>>)
    requires forall s :: s in symbols ==> s in books
    ensures |r| == |symbols|
  {
    seq(|symbols|, k requires 0 <= k < |symbols| =>
      if books[symbols[k]].Ok? then Ok((symbols[k], books[symbols[k]].value)) else Err(books[symbols[k]].error))
  }

  /** Every snapshot can be taken exactly when `Snapshots` succeeds, and then they are its snapshots. */
  lemma {:induction false} TakenSnapshots(symbols: seq<string>, books: map<string, Result<Snapshot>>)
    requires forall s :: s in symbols ==> s in books
    ensures AllOk(Taken(symbols, books)) <==> Snapshots(symbols, books).Ok?
    ensures AllOk(Taken(symbols, books)) ==> Oks(Taken(symbols, books)) == Snapshots(symbols, books).value
  {
    var taken := Taken(symbols, books);
    var all := Snapshots(symbols, books);
    if AllOk(taken) {
      assert forall s :: s in symbols ==> books[s].Ok? by {
        forall s | s in symbols ensures books[s].Ok? {
          var k :| 0 <= k < |symbols| && symbols[k] == s;
          assert taken[k].Ok?;
        }
      }
      ProducesAll(symbols, books);
      assert Oks(taken) == all.value;
    } else {
      var k :| 0 <= k < |symbols| && !taken[k].Ok?;
      assert books[symbols[k]].Err?;
    }
  }

  /** When every symbol's snapshot can be taken, `Snapshots` takes them all. */
  lemma {:induction false} ProducesAll(symbols: seq<string>, books: map<string, Result<Snapshot>>)
    requires forall s :: s in symbols ==> s in books && books[s].Ok?
    ensures Snapshots(symbols, books).Ok?
    decreases |symbols|
  {
    if symbols != [] {
      assert forall x :: x in symbols[..|symbols| - 1] ==> x in symbols;
      ProducesAll(symbols[..|symbols| - 1], books);
    }
  }

  /** Updating the books: for every symbol in turn, its snapshot from `books` is taken and every strategy
      told of it; the first snapshot that cannot be taken or the first strategy that raises stops the update. */
  function BooksUpdate(ss: seq<Strategy>, symbols: seq<string>, books: map<string, Result<Snapshot>>, step: Reaction)
    : Outcome<(seq<Strategy>, nat)>
    requires forall s :: s in symbols ==> s in books
  {
    FoldAll(ss, Taken(symbols, books), step)
  }

  /** Updating the books succeeds exactly when every snapshot can be taken and every strategy, told all the
      snapshots in order alone, does not raise; then each strategy is where being told them alone leaves it. */
  lemma UpdateIsSeen(ss: seq<Strategy>, symbols: seq<string>, books: map<string, Result<Snapshot>>, step: Reaction)
    requires forall s :: s in symbols ==> s in books
    ensures var r, all := BooksUpdate(ss, symbols, books, step), Snapshots(symbols, books);
            r.Done? <==> all.Ok? && forall i :: 0 <= i < |ss| ==> Fold(ss[i], all.value, step).Done?
    ensures var r, all := BooksUpdate(ss, symbols, books, step), Snapshots(symbols, books);
            r.Done? ==> && all.Ok?
                        && forall i :: 0 <= i < |ss| ==> r.value.0[i] == Fold(ss[i], all.value, step).value
  {
    TakenSnapshots(symbols, books);
    FoldAllDone(ss, Taken(symbols, books), step);
  }
}
