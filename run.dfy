/** A run of the simulation engine (market_sim/simulation/engine/simulation_engine.py) as values: the state of
    the whole simulation, and what handing on an order, draining the due events, one time step and a whole run
    make of it. The engine's class is proved against these functions. */
module Runs {
  import opened Wrappers
  import opened Models
  import opened Agents
  import opened Matching
  import opened MarketMaking
  import opened Simulation

  /** The state of one exchange: its two books and the next trade id. */
  datatype BookState = BookState(bids: Book, asks: Book, nextTradeId: nat)

  /** The state of a simulation: the simulated time, the exchanges' symbols in the order they were added and
      their books, the strategies in the order they were added, the event queue, the trades so far and the
      metrics. */
  datatype World = World(now: int, symbols: seq<string>, books: map<string, BookState>, strategies: seq<Strategy>,
                         queue: seq<Event>, trades: seq<Trade>, metrics: Metrics)

  /** Every symbol has an exchange and every exchange a symbol. */
  ghost predicate Listed(w: World) {
    forall s :: s in w.books <==> s in w.symbols
  }

  /** `v` follows on from `w`: the trades and every list of metrics have only been appended to. */
  ghost predicate Extends(w: World, v: World) {
    && w.trades <= v.trades && w.metrics.snapshots <= v.metrics.snapshots
    && w.metrics.agentMetrics <= v.metrics.agentMetrics && w.metrics.marketMetrics <= v.metrics.marketMetrics
  }

  lemma ExtendsTransitive(u: World, v: World, w: World)
    requires Extends(u, v) && Extends(v, w)
    ensures Extends(u, w)
  {
    PrefixTransitive(u.trades, v.trades, w.trades);
    PrefixTransitive(u.metrics.snapshots, v.metrics.snapshots, w.metrics.snapshots);
    PrefixTransitive(u.metrics.agentMetrics, v.metrics.agentMetrics, w.metrics.agentMetrics);
    PrefixTransitive(u.metrics.marketMetrics, v.metrics.marketMetrics, w.metrics.marketMetrics);
  }

  lemma PrefixTransitive<T>(a: seq<T>, b: seq<T>, c: seq<T>)
    requires a <= b && b <= c
    ensures a <= c
  {
    assert c[..|b|][..|a|] == c[..|a|];
  }

  /** The snapshot each exchange gives, at the engine's depth. */
  function SnapshotMap(books: map<string, BookState>): (r: map<string, Result<Snapshot>>)
    ensures forall s :: s in r <==> s in books
  {
    map s | s in books :: SnapshotOf(books[s].bids, books[s].asks, SnapshotDepth)
  }

  /** An order handed to the exchange of its symbol: without one there are no trades; an order the exchange
      cannot match raises and changes nothing; otherwise the exchange's books move on, the trades are
      recorded and every strategy hears them in order. */
  ghost function OrderPlaced(w: World, order: Order): (r: (World, Result<seq<Trade>>))
    ensures Extends(w, r.0) && |r.0.strategies| == |w.strategies|
    ensures r.0.now == w.now && r.0.symbols == w.symbols && r.0.queue == w.queue && r.0.metrics == w.metrics
    ensures forall s :: s in r.0.books <==> s in w.books
  {
    if order.symbol !in w.books then (w, Ok([]))
    else
      var b := w.books[order.symbol];
      var p := Process(b.bids, b.asks, order, order.symbol, b.nextTradeId);
      if p.Err? then (w, Err(p.error))
      else
        var v := p.value;
        (w.(books := w.books[order.symbol := BookState(v.bids, v.asks, v.nextId)], trades := w.trades + v.trades,
            strategies := HeardBy(w.strategies, v.trades)), Ok(v.trades))
  }

  /** An event handled: an order event hands its order on and raises what the exchange raises; any other
      event raises as `EventError` says and changes nothing. */
  ghost function EventHandled(w: World, e: Event): (r: (World, Option<PyError>))
    ensures Extends(w, r.0) && |r.0.strategies| == |w.strategies|
    ensures r.0.now == w.now && r.0.symbols == w.symbols && r.0.queue == w.queue && r.0.metrics == w.metrics
    ensures forall s :: s in r.0.books <==> s in w.books
  {
    if e.eventType == "order" && e.data.OrderData? then
      var r := OrderPlaced(w, e.data.order);
      (r.0, if r.1.Err? then Some(r.1.error) else None)
    else (w, EventError(e))
  }

  /** The queue drained of the events due at `t`, the first of the earliest first; the first exception stops
      the draining, its event already taken off the queue. */
  ghost function Drained(w: World, t: int): (r: (World, Option<PyError>))
    ensures Extends(w, r.0) && |r.0.strategies| == |w.strategies|
    ensures r.0.now == w.now && r.0.symbols == w.symbols && r.0.metrics == w.metrics
    ensures forall s :: s in r.0.books <==> s in w.books
    decreases |w.queue|
  {
    if w.queue == [] then (w, None)
    else
      var k := Earliest(w.queue);
      if w.queue[k].timestamp > t then (w, None)
      else
        var h := EventHandled(w.(queue := w.queue[..k] + w.queue[k + 1..]), w.queue[k]);
        if h.1.Some? then h
        else
          var r := Drained(h.0, t);
          ExtendsTransitive(w, h.0, r.0);
          r
  }

  /** Draining the queue one event at a time: with nothing due it stops; otherwise the first of the earliest
      events is taken off and handled, and the draining goes on unless it raised. */
  lemma DrainedStep(w: World, t: int, k: nat)
    requires w.queue != [] && k == Earliest(w.queue)
    ensures w.queue[k].timestamp > t ==> Drained(w, t) == (w, None)
    ensures var h := EventHandled(w.(queue := w.queue[..k] + w.queue[k + 1..]), w.queue[k]);
            w.queue[k].timestamp <= t ==> Drained(w, t) == if h.1.Some? then h else Drained(h.0, t)
  {
  }

  /** The book snapshots of a step recorded and every strategy told of each in turn, at the step's time; the
      first snapshot that cannot be taken, or the first strategy that raises, stops it. */
  ghost function BooksTold(w: World, step: Reaction): (r: (World, Option<PyError>))
    requires Listed(w)
    ensures Extends(w, r.0) && |r.0.strategies| == |w.strategies|
    ensures r.0.now == w.now && r.0.symbols == w.symbols && r.0.books == w.books && r.0.queue == w.queue
    ensures r.0.trades == w.trades && r.0.metrics.agentMetrics == w.metrics.agentMetrics
    ensures r.0.metrics.marketMetrics == w.metrics.marketMetrics
  {
    var books := SnapshotMap(w.books);
    var u := BooksUpdate(w.strategies, w.symbols, books, step);
    FoldAllReached(w.strategies, Taken(w.symbols, books), step);
    var reached := Oks(Taken(w.symbols, books)[..u.Final().1]);
    (w.(strategies := u.Final().0, metrics := w.metrics.(snapshots := w.metrics.snapshots + Records(w.now, reached))),
     u.Failure())
  }

  /** Updating the books as the engine's loop sees it when it ends: with the telling reaching the first `n`
      snapshots, and leaving the strategies `ss`, the step records those snapshots and raises what the telling
      raised. */
  lemma BooksToldIs(w: World, step: Reaction, ss: seq<Strategy>, n: nat)
    requires Listed(w)
    requires var u := FoldAll(w.strategies, Taken(w.symbols, SnapshotMap(w.books)), step); u.Final() == (ss, n)
    ensures var taken := Taken(w.symbols, SnapshotMap(w.books));
            && AllOk(taken[..n])
            && BooksTold(w, step) == (w.(strategies := ss, metrics := w.metrics.(snapshots := w.metrics.snapshots + Records(w.now, Oks(taken[..n])))),
                                      FoldAll(w.strategies, taken, step).Failure())
  {
    FoldAllReached(w.strategies, Taken(w.symbols, SnapshotMap(w.books)), step);
  }

  /** The agents' metrics: every strategy's portfolio summary at `prices`, taken at clock reading `now`. */
  function Summaries(ss: seq<Strategy>, prices: map<string, real>, now: int): (r: seq<Summary>)
    ensures |r| == |ss|
  {
    seq(|ss|, i requires 0 <= i < |ss| => SummaryOf(ss[i].maker.ledger, prices, now))
  }

  /** The metrics of a step: the current prices, which raise when a snapshot cannot be taken or a best price
      is absent; then a portfolio summary of every strategy at those prices; then the market metrics of the
      snapshots, the first exception stopping them. */
  ghost function Collected(w: World, o: Oracle): (r: (World, Option<PyError>))
    requires Listed(w)
    ensures Extends(w, r.0)
    ensures r.0.now == w.now && r.0.symbols == w.symbols && r.0.books == w.books && r.0.queue == w.queue
    ensures r.0.trades == w.trades && r.0.strategies == w.strategies && r.0.metrics.snapshots == w.metrics.snapshots
  {
    var books := SnapshotMap(w.books);
    var scan := PriceScan(w.symbols, books);
    if scan.Err? then (w, Some(scan.error))
    else
      ScanFindsPrices(w.symbols, books);
      var ms := MarketMetrics(w.now, Snapshots(w.symbols, books).value);
      var agents := Summaries(w.strategies, scan.value, o.clock(w.now));
      (w.(metrics := Metrics(w.metrics.snapshots, w.metrics.agentMetrics + agents, w.metrics.marketMetrics + ms.Final())),
       ms.Failure())
  }

  /** One step of the run at the current time: the due events handled, then the rest of the step, the agents
      taking the snapshots as `react` says at that time; the first exception stops the step. */
  ghost function Tick(w: World, o: Oracle, react: int -> Reaction, step: int): (r: (World, Option<PyError>))
    requires Listed(w)
    ensures Listed(r.0) && r.0.symbols == w.symbols
    ensures Extends(w, r.0) && |r.0.strategies| == |w.strategies|
    ensures r.1.None? ==> r.0.now == w.now + step
  {
    var d := Drained(w, w.now);
    if d.1.Some? then d
    else
      var r := Stepped(d.0, o, react, step);
      ExtendsTransitive(w, d.0, r.0);
      r
  }

  /** The rest of a step: every strategy's stale quotes withdrawn, the books recorded and told to the agents, each
      taking them as `react` says at the current time, the metrics collected and the clock advanced by `step`;
      the first exception stops the step. */
  ghost function Stepped(w: World, o: Oracle, react: int -> Reaction, step: int): (r: (World, Option<PyError>))
    requires Listed(w)
    ensures Listed(r.0) && r.0.symbols == w.symbols && r.0.queue == w.queue
    ensures Extends(w, r.0) && |r.0.strategies| == |w.strategies|
    ensures r.1.None? ==> r.0.now == w.now + step
  {
    var b := BooksTold(w.(strategies := SweptBy(w.strategies, w.now)), react(w.now));
    if b.1.Some? then b
    else
      var c := Collected(b.0, o);
      ExtendsTransitive(w, b.0, c.0);
      if c.1.Some? then c else (c.0.(now := w.now + step), None)
  }

  /** Draining without an exception leaves exactly the events pending after `t`. */
  lemma {:induction false} DrainedLeavesPending(w: World, t: int)
    ensures Drained(w, t).1.None? ==> Drained(w, t).0.queue == Simulation.Pending(w.queue, t)
    decreases |w.queue|
  {
    var q := w.queue;
    if q != [] {
      var k := Earliest(q);
      DrainedStep(w, t, k);
      if q[k].timestamp > t {
        NothingDue(q, t);
      } else {
        var rest := q[..k] + q[k + 1..];
        PopDue(q, k, t);
        var h := EventHandled(w.(queue := rest), q[k]);
        if h.1.None? {
          assert h.0.queue == rest;
          DrainedLeavesPending(h.0, t);
        }
      }
    }
  }

  /** A step that finishes leaves the events pending after its time, records one snapshot per exchange and
      one summary per strategy. */
  lemma TickFacts(w: World, o: Oracle, react: int -> Reaction, step: int)
    requires Listed(w)
    ensures var r := Tick(w, o, react, step);
            r.1.None? ==>
              && r.0.queue == Simulation.Pending(w.queue, w.now)
              && |r.0.metrics.snapshots| == |w.metrics.snapshots| + |w.symbols|
              && |r.0.metrics.agentMetrics| == |w.metrics.agentMetrics| + |w.strategies|
  {
    DrainedLeavesPending(w, w.now);
    var d := Drained(w, w.now);
    if d.1.None? {
      SteppedFacts(d.0, o, react, step);
    }
  }

  lemma SteppedFacts(w: World, o: Oracle, react: int -> Reaction, step: int)
    requires Listed(w)
    ensures var r := Stepped(w, o, react, step);
            r.1.None? ==>
              && |r.0.metrics.snapshots| == |w.metrics.snapshots| + |w.symbols|
              && |r.0.metrics.agentMetrics| == |w.metrics.agentMetrics| + |w.strategies|
  {
    BooksToldRecordsAll(w.(strategies := SweptBy(w.strategies, w.now)), react(w.now));
  }

  /** Updating the books without an exception records one snapshot per exchange. */
  lemma BooksToldRecordsAll(w: World, step: Reaction)
    requires Listed(w)
    ensures BooksTold(w, step).1.None? ==> |BooksTold(w, step).0.metrics.snapshots| == |w.metrics.snapshots| + |w.symbols|
  {
    var taken := Taken(w.symbols, SnapshotMap(w.books));
    var u := FoldAll(w.strategies, taken, step);
    BooksToldIs(w, step, u.Final().0, u.Final().1);
    if u.Done? {
      assert taken[..u.value.1] == taken;
      assert |Records(w.now, Oks(taken))| == |w.symbols|;
    }
  }

  // ---------------------------------------------------------------------------------------------
  // Stepping a clock

  /** Every tick that does not raise moves the clock on by exactly `step`. */
  ghost predicate Advances<W(!new)>(tick: W -> (W, Option<PyError>), clock: W -> int, step: int) {
    forall v {:trigger tick(v)} :: tick(v).1.None? ==> clock(tick(v).0) == clock(v) + step
  }

  /** Every tick keeps `inv`. */
  ghost predicate Keeps<W(!new)>(tick: W -> (W, Option<PyError>), inv: W -> bool) {
    forall v {:trigger tick(v)} :: inv(v) ==> inv(tick(v).0)
  }

  /** Every tick that does not raise, from a state where `inv` holds, adds `k` to `count`. */
  ghost predicate Counts<W(!new)>(tick: W -> (W, Option<PyError>), inv: W -> bool, count: W -> int, k: int) {
    forall v {:trigger tick(v)} :: inv(v) && tick(v).1.None? ==> count(tick(v).0) == count(v) + k
  }

  /** Every tick that does not raise, from a state where `inv` holds, leaves the events pending after the time
      it was taken at. */
  ghost predicate Drains<W(!new)>(tick: W -> (W, Option<PyError>), inv: W -> bool, clock: W -> int, queue: W -> seq<Event>,
                                  pending: (seq<Event>, int) -> seq<Event>) {
    forall v {:trigger tick(v)} :: inv(v) && tick(v).1.None? ==> queue(tick(v).0) == pending(queue(v), clock(v))
  }

  /** Keeping what is pending after `t1` and then after a later `t2` keeps what is pending after `t2`. */
  ghost predicate ComposesAt(pending: (seq<Event>, int) -> seq<Event>, q: seq<Event>, t1: int, t2: int) {
    t1 <= t2 ==> pending(pending(q, t1), t2) == pending(q, t2)
  }

  ghost predicate Composes(pending: (seq<Event>, int) -> seq<Event>) {
    forall q, t1, t2 :: ComposesAt(pending, q, t1, t2)
  }

  /** The state `w` ticked while its clock has not passed `end`; the first exception stops it. */
  ghost function Iterate<W(!new)>(w: W, tick: W -> (W, Option<PyError>), clock: W -> int, step: int, end: int): (W, Option<PyError>)
    requires step > 0 && Advances(tick, clock, step)
    decreases if clock(w) <= end then end - clock(w) + 1 else 0
  {
    if clock(w) > end then (w, None)
    else
      var t := tick(w);
      if t.1.Some? then t else Iterate(t.0, tick, clock, step, end)
  }

  /** The number of ticks that complete. */
  ghost function Iterations<W(!new)>(w: W, tick: W -> (W, Option<PyError>), clock: W -> int, step: int, end: int): nat
    requires step > 0 && Advances(tick, clock, step)
    decreases if clock(w) <= end then end - clock(w) + 1 else 0
  {
    if clock(w) > end then 0
    else
      var t := tick(w);
      if t.1.Some? then 0 else 1 + Iterations(t.0, tick, clock, step, end)
  }

  /** Ticking that finishes has moved the clock from its start past `end` in whole steps, the last of them
      taken at a time no later than `end`; when the clock starts past `end` nothing happens. */
  lemma {:induction false} IterateClock<W(!new)>(w: W, tick: W -> (W, Option<PyError>), clock: W -> int, step: int, end: int)
    requires step > 0 && Advances(tick, clock, step)
    ensures var r, n := Iterate(w, tick, clock, step, end), Iterations(w, tick, clock, step, end);
            r.1.None? ==>
              && end < clock(r.0) == clock(w) + n * step
              && (clock(w) <= end ==> 0 < n && clock(r.0) - step <= end)
              && (clock(w) > end ==> n == 0 && r.0 == w)
    decreases if clock(w) <= end then end - clock(w) + 1 else 0
  {
    if clock(w) <= end {
      var t := tick(w);
      if t.1.None? {
        IterateClock(t.0, tick, clock, step, end);
        var n := Iterations(t.0, tick, clock, step, end);
        assert (1 + n) * step == step + n * step;
      }
    }
  }

  /** Ticking that finishes has moved the clock past `end`. */
  lemma {:induction false} IteratePasses<W(!new)>(w: W, tick: W -> (W, Option<PyError>), clock: W -> int, step: int, end: int)
    requires step > 0 && Advances(tick, clock, step)
    ensures Iterate(w, tick, clock, step, end).1.None? ==> end < clock(Iterate(w, tick, clock, step, end).0)
    decreases if clock(w) <= end then end - clock(w) + 1 else 0
  {
    if clock(w) <= end {
      var t := tick(w);
      if t.1.None? {
        IteratePasses(t.0, tick, clock, step, end);
      }
    }
  }

  /** Ticking keeps what every tick keeps. */
  lemma {:induction false} IterateKeeps<W(!new)>(w: W, tick: W -> (W, Option<PyError>), clock: W -> int, step: int, end: int,
                                           inv: W -> bool)
    requires step > 0 && Advances(tick, clock, step) && Keeps(tick, inv) && inv(w)
    ensures inv(Iterate(w, tick, clock, step, end).0)
    decreases if clock(w) <= end then end - clock(w) + 1 else 0
  {
    if clock(w) <= end {
      var t := tick(w);
      if t.1.None? {
        IterateKeeps(t.0, tick, clock, step, end, inv);
      }
    }
  }

  /** Ticking that finishes adds `k` to `count` at every tick. */
  lemma {:induction false} IterateCount<W(!new)>(w: W, tick: W -> (W, Option<PyError>), clock: W -> int, step: int, end: int,
                                           inv: W -> bool, count: W -> int, k: int)
    requires step > 0 && Advances(tick, clock, step) && Keeps(tick, inv) && Counts(tick, inv, count, k) && inv(w)
    ensures var r, n := Iterate(w, tick, clock, step, end), Iterations(w, tick, clock, step, end);
            r.1.None? ==> count(r.0) == count(w) + n * k
    decreases if clock(w) <= end then end - clock(w) + 1 else 0
  {
    if clock(w) <= end {
      var t := tick(w);
      if t.1.None? {
        IterateCount(t.0, tick, clock, step, end, inv, count, k);
        var n := Iterations(t.0, tick, clock, step, end);
        assert (1 + n) * k == k + n * k;
      }
    }
  }

  /** Ticking that finishes leaves the events pending after the time of its last tick. */
  lemma {:induction false} IterateQueue<W(!new)>(w: W, tick: W -> (W, Option<PyError>), clock: W -> int, step: int,
                                           end: int, inv: W -> bool, queue: W -> seq<Event>, pending: (seq<Event>, int) -> seq<Event>)
    requires step > 0 && Advances(tick, clock, step) && Keeps(tick, inv) && inv(w)
    requires Drains(tick, inv, clock, queue, pending) && Composes(pending)
    ensures var r := Iterate(w, tick, clock, step, end);
            r.1.None? && clock(w) <= end ==> queue(r.0) == pending(queue(w), clock(r.0) - step)
    decreases if clock(w) <= end then end - clock(w) + 1 else 0
  {
    if clock(w) <= end {
      var t := tick(w);
      if t.1.None? && clock(t.0) <= end {
        IterateQueue(t.0, tick, clock, step, end, inv, queue, pending);
        IteratePasses(t.0, tick, clock, step, end);
        var r := Iterate(t.0, tick, clock, step, end);
        if r.1.None? {
          assert ComposesAt(pending, queue(w), clock(w), clock(r.0) - step);
        }
      }
    }
  }

  // ---------------------------------------------------------------------------------------------
  // The run

  /** The simulated time, and what the run records. */
  function Now(w: World): int {
    w.now
  }

  function Queue(w: World): seq<Event> {
    w.queue
  }

  function Recorded(w: World): int {
    |w.metrics.snapshots|
  }

  function Summarized(w: World): int {
    |w.metrics.agentMetrics|
  }

  /** A state the run from `w` can reach: its exchanges listed, its symbols and the number of its strategies
      those of `w`, and following on from `w`. */
  ghost function Reachable(w: World): World -> bool {
    v => Listed(v) && v.symbols == w.symbols && |v.strategies| == |w.strategies| && Extends(w, v)
  }

  /** What the run needs of its step from `w` on: it moves the clock on by exactly `step`, keeps the states
      reachable, and, when it does not raise, leaves the events pending after its time and records one
      snapshot per exchange and one summary per strategy. */
  ghost predicate StepsLike(tick: World -> (World, Option<PyError>), w: World, step: int) {
    && Advances(tick, Now, step) && Keeps(tick, Reachable(w))
    && Counts(tick, Reachable(w), Recorded, |w.symbols|) && Counts(tick, Reachable(w), Summarized, |w.strategies|)
    && Drains(tick, Reachable(w), Now, Queue, Simulation.Pending)
  }

  /** A run by such a step that finishes has moved the clock from its start past `end` in whole steps, the
      last of them taken at a time no later than `end`; it leaves the events pending after that time, has
      recorded one snapshot per exchange and one summary per strategy at every step, and has only appended to
      the trades and the metrics. A run that starts after `end` does nothing. */
  lemma IterateFacts(w: World, tick: World -> (World, Option<PyError>), step: int, end: int)
    requires Listed(w) && step > 0 && StepsLike(tick, w, step)
    ensures var r, n := Iterate(w, tick, Now, step, end), Iterations(w, tick, Now, step, end);
            && Listed(r.0) && r.0.symbols == w.symbols && |r.0.strategies| == |w.strategies| && Extends(w, r.0)
            && (r.1.None? ==>
                  && end < r.0.now == w.now + n * step
                  && (w.now <= end ==> 0 < n && r.0.now - step <= end && r.0.queue == Simulation.Pending(w.queue, r.0.now - step))
                  && (w.now > end ==> r.0 == w)
                  && |r.0.metrics.snapshots| == |w.metrics.snapshots| + n * |w.symbols|
                  && |r.0.metrics.agentMetrics| == |w.metrics.agentMetrics| + n * |w.strategies|)
  {
    assert Reachable(w)(w);
    IterateClock(w, tick, Now, step, end);
    IterateKeeps(w, tick, Now, step, end, Reachable(w));
    IterateCount(w, tick, Now, step, end, Reachable(w), Recorded, |w.symbols|);
    IterateCount(w, tick, Now, step, end, Reachable(w), Summarized, |w.strategies|);
    IteratePending(w, tick, step, end);
  }

  lemma IteratePending(w: World, tick: World -> (World, Option<PyError>), step: int, end: int)
    requires step > 0 && Advances(tick, Now, step) && Keeps(tick, Reachable(w)) && Reachable(w)(w)
    requires Drains(tick, Reachable(w), Now, Queue, Simulation.Pending)
    ensures var r := Iterate(w, tick, Now, step, end);
            r.1.None? && w.now <= end ==> r.0.queue == Simulation.Pending(w.queue, r.0.now - step)
  {
    PendingComposes();
    IterateQueue(w, tick, Now, step, end, Reachable(w), Queue, Simulation.Pending);
  }

  lemma PendingComposes()
    ensures Composes(Simulation.Pending)
  {
    forall q, t1, t2 ensures ComposesAt(Simulation.Pending, q, t1, t2) {
      if t1 <= t2 {
        PendingLater(q, t1, t2);
      }
    }
  }

  /** One step, for any state; a state with an exchange missing for some symbol, which the engine never
      reaches, stops with the exception the lookup would raise. */
  ghost function Ticker(o: Oracle, react: int -> Reaction, step: int): World -> (World, Option<PyError>) {
    v => if Listed(v) then Tick(v, o, react, step) else (v, Some(KeyError))
  }

  /** The engine's step is such a step. */
  lemma TickerStepsLike(w: World, o: Oracle, react: int -> Reaction, step: int)
    ensures StepsLike(Ticker(o, react, step), w, step)
  {
    TickerKeeps(w, o, react, step);
    TickerCounts(w, o, react, step);
  }

  lemma TickerKeeps(w: World, o: Oracle, react: int -> Reaction, step: int)
    ensures Keeps(Ticker(o, react, step), Reachable(w))
  {
    forall v | Reachable(w)(v) ensures Reachable(w)(Ticker(o, react, step)(v).0) {
      ExtendsTransitive(w, v, Tick(v, o, react, step).0);
    }
  }

  lemma TickerCounts(w: World, o: Oracle, react: int -> Reaction, step: int)
    ensures Counts(Ticker(o, react, step), Reachable(w), Recorded, |w.symbols|)
    ensures Counts(Ticker(o, react, step), Reachable(w), Summarized, |w.strategies|)
    ensures Drains(Ticker(o, react, step), Reachable(w), Now, Queue, Simulation.Pending)
  {
    forall v | Reachable(w)(v) {
      TickFacts(v, o, react, step);
    }
  }

  /** The market makers' way of taking the snapshots: at each simulated time, as `TellBook` says. */
  ghost function MakersReact(o: Oracle): int -> Reaction {
    t => BookStep(t, o)
  }

  lemma MakersReactIsStep(o: Oracle)
    ensures forall t :: Implements(BookReaction(t, o), MakersReact(o)(t)) && KeepsGood(MakersReact(o)(t))
  {
    forall t ensures Implements(BookReaction(t, o), MakersReact(o)(t)) && KeepsGood(MakersReact(o)(t)) {
      BookReactionIsStep(t, o);
    }
  }

  /** The run: steps while the simulated time has not passed `end`, the agents taking the snapshots as `react`
      says; the first exception stops it. */
  ghost function RunFrom(w: World, o: Oracle, react: int -> Reaction, step: int, end: int): (World, Option<PyError>)
    requires step > 0
  {
    TickerStepsLike(w, o, react, step);
    Iterate(w, Ticker(o, react, step), Now, step, end)
  }

  /** The number of steps the run completes. */
  ghost function Steps(w: World, o: Oracle, react: int -> Reaction, step: int, end: int): nat
    requires step > 0
  {
    TickerStepsLike(w, o, react, step);
    Iterations(w, Ticker(o, react, step), Now, step, end)
  }

  /** One step of the run: a run whose clock has passed `end` stops; otherwise it ticks once, and goes on from
      there unless the tick raised. */
  lemma RunStep(w: World, o: Oracle, react: int -> Reaction, step: int, end: int)
    requires Listed(w) && step > 0
    ensures var t := Tick(w, o, react, step);
            RunFrom(w, o, react, step, end) == if w.now > end then (w, None) else if t.1.Some? then t else RunFrom(t.0, o, react, step, end)
  {
    TickerStepsLike(w, o, react, step);
    var t := Tick(w, o, react, step);
    if w.now <= end && t.1.None? {
      TickerStepsLike(t.0, o, react, step);
    }
  }

  /** The run from a state with every exchange listed, by the engine's step: it finishes with its clock past
      `end` after whole steps, the last taken no later than `end`, with one snapshot per exchange and one
      summary per strategy recorded at each step, and the trades and metrics only appended to. What it leaves
      pending is `IterateFacts` for the engine's step, which `TickerStepsLike` shows is a step of that kind. */
  lemma RunFacts(w: World, o: Oracle, react: int -> Reaction, step: int, end: int)
    requires Listed(w) && step > 0
    ensures var r, n := RunFrom(w, o, react, step, end), Steps(w, o, react, step, end);
            && Listed(r.0) && r.0.symbols == w.symbols && |r.0.strategies| == |w.strategies| && Extends(w, r.0)
            && (r.1.None? ==>
                  && end < r.0.now == w.now + n * step
                  && (w.now <= end ==> 0 < n && r.0.now - step <= end)
                  && (w.now > end ==> r.0 == w)
                  && |r.0.metrics.snapshots| == |w.metrics.snapshots| + n * |w.symbols|
                  && |r.0.metrics.agentMetrics| == |w.metrics.agentMetrics| + n * |w.strategies|)
  {
    TickerStepsLike(w, o, react, step);
    IterateFacts(w, Ticker(o, react, step), step, end);
  }

  // ---------------------------------------------------------------------------------------------
  // Setting up a simulation, and its results

  /** A simulation starting at `start`, with nothing in it yet. */
  function Initial(start: int): (r: World)
    ensures Listed(r) && r.now == start && r.symbols == [] && r.strategies == [] && r.queue == [] && r.trades == []
  {
    World(start, [], map[], [], [], [], Metrics([], [], []))
  }

  /** A fresh exchange for `symbol`, with empty books and no trades yet, replacing any exchange for it and
      keeping its place in the order of the exchanges; a new symbol comes last. */
  function ExchangeAdded(w: World, symbol: string): (r: World)
    ensures r.books.Keys == w.books.Keys + {symbol} && r.books[symbol] == BookState(map[], map[], 0)
    ensures forall s :: s in w.books && s != symbol ==> r.books[s] == w.books[s]
    ensures |r.symbols| == |w.symbols| + (if symbol in w.symbols then 0 else 1)
    ensures w.symbols <= r.symbols && symbol in r.symbols
    ensures r.now == w.now && r.strategies == w.strategies && r.queue == w.queue && r.trades == w.trades
    ensures r.metrics == w.metrics
  {
    w.(symbols := if symbol in w.symbols then w.symbols else w.symbols + [symbol],
       books := w.books[symbol := BookState(map[], map[], 0)])
  }

  lemma ExchangeAddedIs(w: World, symbol: string, v: World)
    requires v.symbols == (if symbol in w.symbols then w.symbols else w.symbols + [symbol])
    requires v.books == w.books[symbol := BookState(map[], map[], 0)]
    requires v.now == w.now && v.strategies == w.strategies && v.queue == w.queue && v.trades == w.trades
    requires v.metrics == w.metrics
    ensures v == ExchangeAdded(w, symbol)
  {
  }

  /** Adding an exchange keeps every symbol listed once with its exchange. */
  lemma ExchangeAddedListed(w: World, symbol: string)
    requires Listed(w) && Distinct(w.symbols)
    ensures Listed(ExchangeAdded(w, symbol)) && Distinct(ExchangeAdded(w, symbol).symbols)
  {
    if symbol !in w.symbols {
      AppendDistinct(w.symbols, symbol);
    }
  }

  /** Some strategy of `ss` has the agent id `id`. */
  predicate Enlisted(ss: seq<Strategy>, id: string) {
    exists i :: 0 <= i < |ss| && ss[i].id == id
  }

  /** No two strategies have the same agent id. */
  predicate DistinctIds(ss: seq<Strategy>) {
    forall i, j :: 0 <= i < |ss| && 0 <= j < |ss| && i != j ==> ss[i].id != ss[j].id
  }

  /** A strategy replaced by one with the same agent id keeps the ids distinct. */
  lemma ReplacedDistinct(ss: seq<Strategy>, i: nat, st: Strategy)
    requires DistinctIds(ss) && i < |ss| && ss[i].id == st.id
    ensures DistinctIds(ss[i := st])
  {
  }

  /** Two lists of strategies with the same agent id at every place. */
  predicate SameIds(a: seq<Strategy>, b: seq<Strategy>) {
    |a| == |b| && forall k :: 0 <= k < |a| ==> a[k].id == b[k].id
  }

  lemma SameIdsDistinct(a: seq<Strategy>, b: seq<Strategy>)
    requires SameIds(a, b) && DistinctIds(a)
    ensures DistinctIds(b)
  {
    forall i, j | 0 <= i < |b| && 0 <= j < |b| && i != j ensures b[i].id != b[j].id {
      assert a[i].id != a[j].id;
    }
  }

  /** Telling well-formed strategies of a snapshot by a step that keeps them well formed and the same
      agents leaves them so, whether or not one raised. */
  lemma {:induction false} TellAllKeepsGood(ss: seq<Strategy>, step: Reaction, x: (string, Snapshot))
    requires AllGood(ss) && KeepsGood(step)
    ensures var r := TellAll(ss, Teller(step, x)).Final(); AllGood(r) && SameIds(ss, r)
    decreases |ss|
  {
    if ss != [] {
      var init, last := ss[..|ss| - 1], ss[|ss| - 1];
      TellAllKeepsGood(init, step, x);
      TellStep(ss, Teller(step, x));
      var prev, r := TellAll(init, Teller(step, x)), TellAll(ss, Teller(step, x)).Final();
      var next := if prev.Raised? then last else step(last, x).Final();
      assert r == prev.Final() + [next];
      assert GoodStrategy(next) && next.id == last.id;
      forall k | 0 <= k < |ss| ensures GoodStrategy(r[k]) && r[k].id == ss[k].id {
        if k < |init| {
          assert r[k] == prev.Final()[k] && ss[k] == init[k];
        }
      }
    }
  }

  /** A strategy added under its agent's id: it takes the place of the strategy with that id, keeping its
      place in the order of the agents, or comes last. */
  function Enrolled(ss: seq<Strategy>, st: Strategy): (r: seq<Strategy>)
    ensures Enlisted(ss, st.id) ==> |r| == |ss| && forall i :: 0 <= i < |ss| ==> r[i] == if ss[i].id == st.id then st else ss[i]
    ensures !Enlisted(ss, st.id) ==> r == ss + [st]
  {
    if Enlisted(ss, st.id) then seq(|ss|, i requires 0 <= i < |ss| => if ss[i].id == st.id then st else ss[i])
    else ss + [st]
  }

  /** Adding a strategy keeps the agent ids distinct, and the strategy is there afterwards exactly once. */
  lemma {:induction false} EnrolledDistinct(ss: seq<Strategy>, st: Strategy)
    requires DistinctIds(ss)
    ensures var r := Enrolled(ss, st);
            && DistinctIds(r) && st in r && Enlisted(r, st.id)
            && (forall i :: 0 <= i < |ss| && ss[i].id != st.id ==> r[i] == ss[i])
            && (forall id :: Enlisted(r, id) <==> Enlisted(ss, id) || id == st.id)
  {
    var r := Enrolled(ss, st);
    if Enlisted(ss, st.id) {
      var k :| 0 <= k < |ss| && ss[k].id == st.id;
      assert r[k] == st;
      forall id | Enlisted(r, id) ensures Enlisted(ss, id) || id == st.id {
        var i :| 0 <= i < |r| && r[i].id == id;
        assert r[i] == st || r[i] == ss[i];
      }
      forall id | Enlisted(ss, id) ensures Enlisted(r, id) {
        var i :| 0 <= i < |ss| && ss[i].id == id;
        assert r[i].id == id;
      }
    } else {
      assert r[|ss|] == st;
      forall id | Enlisted(r, id) ensures Enlisted(ss, id) || id == st.id {
        var i :| 0 <= i < |r| && r[i].id == id;
        if i < |ss| {
          assert r[i] == ss[i];
        }
      }
      forall id | Enlisted(ss, id) ensures Enlisted(r, id) {
        var i :| 0 <= i < |ss| && ss[i].id == id;
        assert r[i] == ss[i];
      }
    }
  }

  /** A strategy added to the simulation. */
  function StrategyAdded(w: World, st: Strategy): (r: World)
    ensures r.strategies == Enrolled(w.strategies, st)
    ensures r.now == w.now && r.symbols == w.symbols && r.books == w.books && r.queue == w.queue && r.trades == w.trades
    ensures r.metrics == w.metrics
  {
    w.(strategies := Enrolled(w.strategies, st))
  }

  /** An event scheduled: it joins the queue. */
  function Scheduled(w: World, e: Event): (r: World)
    ensures multiset(r.queue) == multiset(w.queue) + multiset{e}
    ensures r.now == w.now && r.symbols == w.symbols && r.books == w.books && r.strategies == w.strategies
    ensures r.trades == w.trades && r.metrics == w.metrics
  {
    w.(queue := w.queue + [e])
  }

  /** An event scheduled after time `t` is pending after it, and one scheduled at or before `t` is not. */
  lemma ScheduledPending(w: World, e: Event, t: int)
    ensures Simulation.Pending(Scheduled(w, e).queue, t) == Simulation.Pending(w.queue, t) + if e.timestamp > t then [e] else []
  {
    PendingAppend(w.queue, [e], t);
    assert [e][1..] == [];
  }

  /** What a run returns: its start and end times, the trades, the metrics, and every agent's portfolio
      summary without knowing any price, taken at clock reading `now`. */
  datatype Results = Results(startTime: int, endTime: int, trades: seq<Trade>, metrics: Metrics, finalState: seq<Summary>)

  /** Without prices a summary shows no holdings, and every agent's summary is its own. */
  lemma FinalSummaries(ss: seq<Strategy>, now: int)
    ensures |Summaries(ss, map[], now)| == |ss|
    ensures forall i :: 0 <= i < |ss| ==>
              var s := Summaries(ss, map[], now)[i];
              && s.agentId == ss[i].maker.ledger.agentId && s.timestamp == now && s.positions == map[]
              && s.cashBalance == ss[i].maker.ledger.balance && s.totalValue == s.cashBalance
  {
    forall i | 0 <= i < |ss| ensures Summaries(ss, map[], now)[i].totalValue == ss[i].maker.ledger.balance {
      HoldingsWithoutPrices(ss[i].maker.ledger.symbols, ss[i].maker.ledger.positions);
    }
  }
}
