/** The simulation engine's class (market_sim/simulation/engine/simulation_engine.py): the exchanges, the
    market-making agents, the event queue and the results, updated in place, each operation proved against
    the values of module `Runs`. The class holds the state of every exchange and of every agent as a value:
    an exchange is the state of its matching engine and an agent the state of its strategy, and the
    operations on them are the functions `Matching.MatchingEngine` and `MarketMaking.MarketMaker` are proved
    against. */
module SimulationEngine {
  import opened Wrappers
  import opened Models
  import opened Agents
  import opened Matching
  import opened MarketMaking
  import opened Simulation
  import opened Runs

  /** The engine's default time step, in milliseconds. */
  const DefaultTimeStep := 100

  /** A market maker as the simulation holds it. */
  function StrategyOf(m: MarketMaker): (r: Strategy)
    reads m, m.agent
    ensures r.id == m.agent.agentId && r.maker == m.State() && r.params == m.params && r.symbols == m.symbols
  {
    Strategy(m.agent.agentId, m.params, m.symbols, m.State())
  }

  /** A well-formed market maker gives a well-formed strategy. */
  lemma StrategyOfGood(m: MarketMaker)
    requires m.Valid()
    ensures GoodStrategy(StrategyOf(m))
  {
  }

  /** The agents `ss` told of the snapshot `snap` of `symbol` in turn, each by the call `react`, which does
      what `step` does; the first agent that raises stops the telling, left as the exception left it. Every
      agent stays well formed under its id. */
  method OnOrderBookUpdates(ss: seq<Strategy>, symbol: string, snap: Snapshot,
                            react: (Strategy, (string, Snapshot)) --> Outcome<Strategy>, ghost step: Reaction)
    returns (r: Outcome<seq<Strategy>>)
    requires AllGood(ss) && Implements(react, step) && KeepsGood(step)
    ensures r == TellAll(ss, Teller(step, (symbol, snap)))
    ensures AllGood(r.Final()) && SameIds(ss, r.Final())
  {
    ghost var tell := Teller(step, (symbol, snap));
    var done: seq<Strategy> := [];
    var i := 0;
    while i < |ss|
      invariant 0 <= i <= |ss| && TellAll(ss[..i], tell) == Done(done)
    {
      var told := react(ss[i], (symbol, snap));
      TellAllNext(ss, i, done, tell);
      if told.Raised? {
        r := Raised(told.error, done + [told.Final()] + ss[i + 1..]);
        break;
      }
      done := done + [told.value];
      i := i + 1;
    }
    if i == |ss| {
      assert ss[..i] == ss;
      r := Done(done);
    }
    TellAllKeepsGood(ss, step, (symbol, snap));
  }

  /** For every symbol in turn, the snapshot of its exchange in `books` taken and recorded at simulated time `t`,
      and the agents `ss` told of it; the first snapshot that cannot be taken, or the first agent that raises,
      stops the update. The count is the number of snapshots taken. */
  method OnOrderBooks(ss: seq<Strategy>, symbols: seq<string>, books: map<string, BookState>, t: int,
                      react: (Strategy, (string, Snapshot)) --> Outcome<Strategy>, ghost step: Reaction)
    returns (r: Outcome<(seq<Strategy>, nat)>, records: seq<BookRecord>)
    requires AllGood(ss) && Implements(react, step) && KeepsGood(step) && forall s :: s in symbols ==> s in books
    ensures var taken := Taken(symbols, SnapshotMap(books));
            && r == FoldAll(ss, taken, step) && AllOk(taken[..r.Final().1])
            && records == Records(t, Oks(taken[..r.Final().1]))
    ensures AllGood(r.Final().0) && SameIds(ss, r.Final().0)
  {
    ghost var taken := Taken(symbols, SnapshotMap(books));
    var cur: seq<Strategy>, j: nat := ss, 0;
    records := [];
    while j < |symbols|
      invariant j <= |symbols| && FoldAll(ss, taken[..j], step) == Done((cur, j)) && AllOk(taken[..j])
      invariant records == Records(t, Oks(taken[..j])) && AllGood(cur) && SameIds(ss, cur)
    {
      var symbol := symbols[j];
      var snap := SnapshotOf(books[symbol].bids, books[symbol].asks, SnapshotDepth);
      assert SnapshotMap(books)[symbol] == snap;
      assert taken[j] == if snap.Ok? then Ok((symbol, snap.value)) else Err(snap.error);
      FoldAllNext(ss, taken, j, cur, step);
      if snap.Err? {
        return Raised(snap.error, (cur, j)), records;
      }
      RecordsNext(t, taken, j);
      records := records + [BookRecord(t, symbol, snap.value.bids, snap.value.asks)];
      var told := OnOrderBookUpdates(cur, symbol, snap.value, react, step);
      if told.Raised? {
        return Raised(told.error, (told.Final(), j + 1)), records;
      }
      cur, j := told.value, j + 1;
    }
    assert taken[..j] == taken;
    r := Done((cur, j));
  }

  /** Every strategy in `ss` told of the trade `t`, in the order they were added. */
  method HearTrade(ss: seq<Strategy>, t: Trade) returns (r: seq<Strategy>)
    requires AllGood(ss)
    ensures r == HeardBy(ss, [t]) && AllGood(r) && SameIds(ss, r)
  {
    r := [];
    var i := 0;
    while i < |ss|
      invariant 0 <= i <= |ss| && r == HeardBy(ss[..i], [t])
    {
      var st := ss[i];
      HeardOne(st, t);
      HeardByNext(ss, i, [t]);
      r := r + [st.(maker := TradeHeard(st.params, st.symbols, st.maker, t))];
      i := i + 1;
    }
    assert ss[..i] == ss;
  }

  /** Every strategy in `ss` withdrawing its stale quotes at `now`, in the order they were added. */
  method SweepAll(ss: seq<Strategy>, now: int) returns (r: seq<Strategy>)
    requires AllGood(ss)
    ensures r == SweptBy(ss, now) && AllGood(r) && SameIds(ss, r)
  {
    r := [];
    var i := 0;
    while i < |ss|
      invariant 0 <= i <= |ss| && r == SweptBy(ss[..i], now)
    {
      var st := ss[i];
      assert Simulation.Swept(st, now) == st.(maker := StaleSwept(st.symbols, st.maker, now));
      SweptByNext(ss, i, now);
      r := r + [st.(maker := StaleSwept(st.symbols, st.maker, now))];
      i := i + 1;
    }
    assert ss[..i] == ss;
  }

  /** The current prices, exchange by exchange in the order of `symbols`: each snapshot is taken just before its
      mid price is read; the first snapshot or price that cannot be read raises. */
  method PricesOf(symbols: seq<string>, books: map<string, BookState>) returns (r: Result<map<string, real>>)
    requires forall s :: s in symbols ==> s in books
    ensures r == PriceScan(symbols, SnapshotMap(books))
  {
    ghost var snaps := SnapshotMap(books);
    var prices: map<string, real> := map[];
    var j := 0;
    while j < |symbols|
      invariant 0 <= j <= |symbols| && (forall s :: s in symbols[..j] ==> s in snaps)
      invariant PriceScan(symbols[..j], snaps) == Ok(prices)
    {
      var symbol := symbols[j];
      var snap := SnapshotOf(books[symbol].bids, books[symbol].asks, SnapshotDepth);
      assert snaps[symbol] == snap;
      PriceScanNext(symbols, snaps, j, prices);
      if snap.Err? {
        return Err(snap.error);
      }
      var next := WithPrice(prices, symbol, snap.value);
      if next.Err? {
        return Err(next.error);
      }
      prices := next.value;
      j := j + 1;
    }
    assert symbols[..j] == symbols;
    r := Ok(prices);
  }

  /** Every agent's portfolio summary at `prices`, in the order of the agents, taken at clock reading `now`. */
  method SummariesOf(ss: seq<Strategy>, prices: map<string, real>, now: int) returns (r: seq<Summary>)
    ensures r == Summaries(ss, prices, now)
  {
    r := [];
    var i := 0;
    while i < |ss|
      invariant 0 <= i <= |ss| && r == Summaries(ss[..i], prices, now)
    {
      r := r + [SummaryOf(ss[i].maker.ledger, prices, now)];
      i := i + 1;
      assert r == Summaries(ss[..i], prices, now);
    }
    assert ss[..i] == ss;
  }

  /** The market metrics of every exchange, in the order of `symbols`, from a snapshot taken anew; the first
      exception stops them, leaving those found before it. */
  method MetricsOf(t: int, symbols: seq<string>, books: map<string, BookState>) returns (r: Outcome<seq<MarketMetric>>)
    requires (forall s :: s in symbols ==> s in books) && Snapshots(symbols, SnapshotMap(books)).Ok?
    ensures r == MarketMetrics(t, Snapshots(symbols, SnapshotMap(books)).value)
  {
    ghost var snaps := Snapshots(symbols, SnapshotMap(books)).value;
    var ms: seq<MarketMetric> := [];
    var j := 0;
    while j < |symbols|
      invariant 0 <= j <= |symbols| == |snaps| && MarketMetrics(t, snaps[..j]) == Done(ms)
    {
      var symbol := symbols[j];
      var snap := SnapshotOf(books[symbol].bids, books[symbol].asks, SnapshotDepth);
      assert SnapshotMap(books)[symbol] == snap == Ok(snaps[j].1) && snaps[j].0 == symbol;
      MarketMetricsNext(t, snaps, j, ms);
      var m := MetricOf(t, symbol, snap.value);
      if m.Err? {
        return Raised(m.error, ms);
      }
      ms := ms + if m.value.Some? then [m.value.value] else [];
      j := j + 1;
    }
    assert snaps[..j] == snaps;
    r := Done(ms);
  }

  /** The metrics of simulation `w` once the current prices, the agents' summaries and the market metrics are
      collected, and the exception raised on the way, if any. */
  method MetricsCollected(w: World, o: Oracle) returns (m: Metrics, error: Option<PyError>)
    requires Listed(w)
    ensures (w.(metrics := m), error) == Collected(w, o)
  {
    m := w.metrics;
    var scan := PricesOf(w.symbols, w.books);
    if scan.Err? {
      return m, Some(scan.error);
    }
    ScanFindsPrices(w.symbols, SnapshotMap(w.books));
    var summaries := SummariesOf(w.strategies, scan.value, o.clock(w.now));
    var ms := MetricsOf(w.now, w.symbols, w.books);
    m := Metrics(m.snapshots, m.agentMetrics + summaries, m.marketMetrics + ms.Final());
    error := ms.Failure();
  }

  class MarketSimulation {
    const startTime: int
    const endTime: int
    const timeStep: int
    var currentTime: int
    /** The symbols of the exchanges, in the order they were first added. */
    var symbols: seq<string>
    /** The state of the matching engine of every symbol. */
    var exchanges: map<string, BookState>
    /** The agents, in the order they were first added. */
    var agents: seq<Strategy>
    var queue: seq<Event>
    var trades: seq<Trade>
    var metrics: Metrics

    /** The simulation as a value. */
    function State(): World
      reads this
    {
      World(currentTime, symbols, exchanges, agents, queue, trades, metrics)
    }

    /** Every symbol once, each with its exchange, and every agent well formed under an id of its own. */
    ghost predicate Valid()
      reads this
    {
      Distinct(symbols) && Listed(State()) && AllGood(agents) && DistinctIds(agents)
    }

    constructor(startTime: int, endTime: int, timeStep: int := DefaultTimeStep)
      ensures Valid() && State() == Initial(startTime)
      ensures this.startTime == startTime && this.endTime == endTime && this.timeStep == timeStep
    {
      this.startTime := startTime;
      this.endTime := endTime;
      this.timeStep := timeStep;
      currentTime := startTime;
      symbols := [];
      exchanges := map[];
      agents := [];
      queue := [];
      trades := [];
      metrics := Metrics([], [], []);
    }

    /** A new exchange for `symbol`, with empty books and no trades yet, replacing any there was. */
    method AddExchange(symbol: string)
      requires Valid()
      modifies this
      ensures Valid() && State() == ExchangeAdded(old(State()), symbol)
    {
      ExchangeAddedListed(State(), symbol);
      if symbol !in symbols {
        symbols := symbols + [symbol];
      }
      exchanges := exchanges[symbol := BookState(map[], map[], 0)];
    }

    /** The market maker `m`, under its agent's id, replacing the agent there was under that id. */
    method AddAgent(m: MarketMaker)
      requires Valid() && m.Valid()
      modifies this
      ensures Valid() && State() == StrategyAdded(old(State()), old(StrategyOf(m)))
    {
      var st := StrategyOf(m);
      StrategyOfGood(m);
      EnrolledDistinct(agents, st);
      agents := Enrolled(agents, st);
    }

    /** An event scheduled for `timestamp`. */
    method ScheduleEvent(timestamp: int, eventType: string, data: Payload)
      requires Valid()
      modifies this
      ensures Valid() && State() == Scheduled(old(State()), Event(timestamp, eventType, data))
    {
      queue := queue + [Event(timestamp, eventType, data)];
    }

    /** Every agent told of the trade `t`, in the order they were added. */
    method NotifyAgentsOfTrade(t: Trade)
      requires Valid()
      modifies this
      ensures Valid() && State() == old(State()).(strategies := HeardBy(old(agents), [t]))
    {
      var heard := HearTrade(agents, t);
      SameIdsDistinct(agents, heard);
      agents := heard;
    }

    /** An order handed to the exchange of its symbol, its trades recorded and every agent told of each in
        turn; without an exchange for the symbol there are no trades, and an order the exchange cannot match
        raises and changes nothing. */
    method ProcessOrder(order: Order) returns (r: Result<seq<Trade>>)
      requires Valid()
      modifies this
      ensures Valid() && (State(), r) == OrderPlaced(old(State()), order)
    {
      if order.symbol !in exchanges {
        return Ok([]);
      }
      var b := exchanges[order.symbol];
      var p := Process(b.bids, b.asks, order, order.symbol, b.nextTradeId);
      if p.Err? {
        return Err(p.error);
      }
      var v := p.value;
      exchanges := exchanges[order.symbol := BookState(v.bids, v.asks, v.nextId)];
      RecordTrades(v.trades);
      r := Ok(v.trades);
    }

    /** The trades `ts` recorded in turn, every agent told of each as it is recorded. */
    method RecordTrades(ts: seq<Trade>)
      requires Valid()
      modifies this
      ensures Valid() && State() == old(State()).(trades := old(trades) + ts, strategies := HeardBy(old(agents), ts))
    {
      ghost var w := State();
      var j := 0;
      while j < |ts|
        invariant 0 <= j <= |ts| && Valid()
        invariant State() == w.(trades := w.trades + ts[..j], strategies := HeardBy(w.strategies, ts[..j]))
      {
        HeardByThen(w.strategies, ts[..j], ts[j]);
        assert ts[..j + 1] == ts[..j] + [ts[j]];
        trades := trades + [ts[j]];
        NotifyAgentsOfTrade(ts[j]);
        j := j + 1;
      }
      assert ts[..j] == ts;
    }

    /** One event handled: an order event hands its order on, a market event is handled as its type says,
        and an event of any other type is ignored. */
    method ProcessEvent(e: Event) returns (error: Option<PyError>)
      requires Valid()
      modifies this
      ensures Valid() && (State(), error) == EventHandled(old(State()), e)
    {
      if e.eventType == "order" {
        if e.data.Fields? {
          return Some(AttributeError);
        }
        var r := ProcessOrder(e.data.order);
        error := if r.Err? then Some(r.error) else None;
      } else if e.eventType == "market_event" {
        error := MarketEventError(e.data);
      } else {
        error := None;
      }
    }

    /** The events due at the current time handled, the first of the earliest first, each taken off the
        queue before it is handled; the first exception stops the draining. */
    method ProcessDueEvents() returns (error: Option<PyError>)
      requires Valid()
      modifies this
      ensures Valid() && (State(), error) == Drained(old(State()), old(currentTime))
    {
      ghost var t := currentTime;
      while queue != []
        invariant Valid() && currentTime == t
        invariant Drained(State(), t) == Drained(old(State()), t)
        decreases |queue|
      {
        var k := FindEarliest(queue);
        DrainedStep(State(), t, k);
        if queue[k].timestamp > currentTime {
          break;
        }
        var e := queue[k];
        queue := queue[..k] + queue[k + 1..];
        error := ProcessEvent(e);
        if error.Some? {
          return;
        }
      }
      error := None;
    }

    /** Every agent told of the current time, in the order they were added: stale quotes are withdrawn. */
    method TimeUpdates()
      requires Valid()
      modifies this
      ensures Valid() && State() == old(State()).(strategies := SweptBy(old(agents), currentTime))
    {
      var swept := SweepAll(agents, currentTime);
      SameIdsDistinct(agents, swept);
      agents := swept;
    }

    /** The snapshot of every exchange, in the order they were added, recorded and every agent told of it;
        the first snapshot that cannot be taken, or the first agent that raises, stops the update. */
    method UpdateOrderBooks(react: (Strategy, (string, Snapshot)) --> Outcome<Strategy>, ghost step: Reaction)
      returns (error: Option<PyError>)
      requires Valid() && Implements(react, step) && KeepsGood(step)
      modifies this
      ensures Valid() && (State(), error) == BooksTold(old(State()), step)
    {
      var u, records := OnOrderBooks(agents, symbols, exchanges, currentTime, react, step);
      BooksToldIs(State(), step, u.Final().0, u.Final().1);
      SameIdsDistinct(agents, u.Final().0);
      agents := u.Final().0;
      metrics := metrics.(snapshots := metrics.snapshots + records);
      error := u.Failure();
    }

    /** The metrics of the current step: the current prices, then every agent's portfolio summary at those
        prices, then the market metrics of every exchange; a snapshot or price that cannot be read raises. */
    method CollectMetrics(o: Oracle) returns (error: Option<PyError>)
      requires Valid()
      modifies this
      ensures Valid() && (State(), error) == Collected(old(State()), o)
    {
      var m;
      m, error := MetricsCollected(State(), o);
      metrics := m;
    }

    /** One pass of the run's loop: the due events handled, every agent told the time, the order books updated
        and the metrics collected, then the clock advanced by `timeStep`; the first exception stops the pass. */
    method Step(o: Oracle, react: int -> ((Strategy, (string, Snapshot)) --> Outcome<Strategy>), ghost steps: int -> Reaction)
      returns (error: Option<PyError>)
      requires Valid() && Implements(react(currentTime), steps(currentTime)) && KeepsGood(steps(currentTime))
      modifies this
      ensures Valid() && (State(), error) == Tick(old(State()), o, steps, timeStep)
    {
      error := ProcessDueEvents();
      if error.Some? {
        return;
      }
      ghost var drained := State();
      TimeUpdates();
      error := UpdateOrderBooks(react(currentTime), steps(currentTime));
      if error.Some? {
        return;
      }
      error := CollectMetrics(o);
      if error.Some? {
        return;
      }
      currentTime := currentTime + timeStep;
      assert (State(), error) == Stepped(drained, o, steps, timeStep);
    }

    /** The run with the agents' reaction to a snapshot given at every simulated time as `react`, which
        computes `steps`: it steps while the clock has not passed `endTime`, and returns the results once it
        has; the first exception ends the run. */
    method RunWith(o: Oracle, react: int -> ((Strategy, (string, Snapshot)) --> Outcome<Strategy>), ghost steps: int -> Reaction)
      returns (r: Result<Results>)
      requires Valid() && timeStep > 0
      requires forall t :: Implements(react(t), steps(t)) && KeepsGood(steps(t))
      modifies this
      ensures Valid()
      ensures var run := RunFrom(old(State()), o, steps, timeStep, endTime);
              && State() == run.0 && (r.Err? <==> run.1.Some?) && (r.Err? ==> r.error == run.1.value)
      ensures r.Ok? ==> r.value == Results(startTime, endTime, trades, metrics, Summaries(agents, map[], o.clock(currentTime)))
    {
      ghost var start := State();
      while currentTime <= endTime
        invariant Valid() && RunFrom(State(), o, steps, timeStep, endTime) == RunFrom(start, o, steps, timeStep, endTime)
        decreases endTime - currentTime
      {
        RunStep(State(), o, steps, timeStep, endTime);
        var error := Step(o, react, steps);
        if error.Some? {
          return Err(error.value);
        }
      }
      RunStep(State(), o, steps, timeStep, endTime);
      var results := SimulationResults(o);
      r := Ok(results);
    }

    /** The run of the simulation, its market makers reacting to every snapshot as `TellBook` says. */
    method Run(o: Oracle) returns (r: Result<Results>)
      requires Valid() && timeStep > 0
      modifies this
      ensures Valid()
      ensures var run := RunFrom(old(State()), o, MakersReact(o), timeStep, endTime);
              && State() == run.0 && (r.Err? <==> run.1.Some?) && (r.Err? ==> r.error == run.1.value)
      ensures r.Ok? ==> r.value == Results(startTime, endTime, trades, metrics, Summaries(agents, map[], o.clock(currentTime)))
    {
      MakersReactIsStep(o);
      r := RunWith(o, t => BookReaction(t, o), MakersReact(o));
    }

    /** The results: the start and end times, the trades, the metrics and, in the order of the agents, each
        agent's portfolio summary against no prices, which shows its cash alone. */
    method SimulationResults(o: Oracle) returns (r: Results)
      ensures r.startTime == startTime && r.endTime == endTime && r.trades == trades && r.metrics == metrics
      ensures r.finalState == Summaries(agents, map[], o.clock(currentTime)) && |r.finalState| == |agents|
      ensures forall i :: 0 <= i < |agents| ==>
                && r.finalState[i].agentId == agents[i].maker.ledger.agentId && r.finalState[i].positions == map[]
                && r.finalState[i].totalValue == r.finalState[i].cashBalance == agents[i].maker.ledger.balance
    {
      var finalState := SummariesOf(agents, map[], o.clock(currentTime));
      FinalSummaries(agents, o.clock(currentTime));
      r := Results(startTime, endTime, trades, metrics, finalState);
    }
  }
}
