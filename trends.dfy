/** The consecutive-trend analysis of `get_consecutive_trends` (stock_trend_analysis.py), over the
    sequence of daily closes. A date is represented by its position in that sequence. */
module Trends {
  import opened Wrappers

  datatype Direction = Up | Down

  /** A streak of length > 4, as reported in `long_streaks`. */
  datatype LongStreak = LongStreak(length: nat, startDate: nat, change: real, changePct: real)

  /** The dictionary returned by the source. */
  datatype TrendSummary = TrendSummary(
    maxUpStreak: nat, maxDownStreak: nat,
    upStreaks: map<nat, nat>, downStreaks: map<nat, nat>,
    maxUpChange: real, maxDownChange: real, maxUpChangePct: real, maxDownChangePct: real,
    avgUpChange: real, avgDownChange: real, avgUpChangePct: real, avgDownChangePct: real,
    longUp: seq<LongStreak>, longDown: seq<LongStreak>)

  /** A recorded streak: `start` is the date of the close just before its first move, `end` the date
      of its last move. */
  datatype Run = Run(length: nat, start: nat, end: nat, change: real, changePct: real)

  /** The daily change on date `i`. */
  function Change(c: seq<real>, i: nat): real
    requires 0 < i < |c|
  {
    c[i] - c[i - 1]
  }

  /** The change on date `i` moves in direction `d`. */
  predicate Moves(c: seq<real>, d: Direction, i: nat)
    requires 0 < i < |c|
  {
    if d == Up then Change(c, i) > 0.0 else Change(c, i) < 0.0
  }

  /** The change on date `i` does not move against direction `d`. */
  predicate Holds(c: seq<real>, d: Direction, i: nat)
    requires 0 < i < |c|
  {
    if d == Up then Change(c, i) >= 0.0 else Change(c, i) <= 0.0
  }

  /** The number of dates in (a, b] whose change moves in direction `d`. */
  function CountMoves(c: seq<real>, d: Direction, a: nat, b: nat): nat
    requires a <= b < |c|
    decreases b - a
  {
    if a == b then 0 else CountMoves(c, d, a, b - 1) + (if Moves(c, d, b) then 1 else 0)
  }

  /** The percent change from the close on date `a` to the close on date `b`. */
  function PctChange(c: seq<real>, a: nat, b: nat): real
    requires a < |c| && b < |c| && c[a] != 0.0
  {
    (c[b] - c[a]) / c[a] * 100.0
  }

  /** The date of the last change at or before date `s` that is not zero, or 0 when there is none. */
  function LastMove(c: seq<real>, s: nat): (m: nat)
    requires s < |c|
    ensures m <= s
  {
    if s == 0 then 0 else if Change(c, s) != 0.0 then s else LastMove(c, s - 1)
  }

  /** The date of the first change after date `e` that is not zero, or `|c|` when there is none. */
  function NextMove(c: seq<real>, e: nat): (m: nat)
    requires e < |c|
    ensures e < m <= |c|
    decreases |c| - e
  {
    if e + 1 == |c| then |c| else if Change(c, e + 1) != 0.0 then e + 1 else NextMove(c, e + 1)
  }

  /** `r` is a streak of direction `d` in `c`: it starts with a move, ends with a move, never moves
      against `d` in between, has as many moves as its length, and its change and percent change are
      measured from the close before its first move. It is maximal: the last move before it and the first
      move after it, where there are such moves, go against `d`. */
  ghost predicate RunIn(c: seq<real>, d: Direction, r: Run)
    requires forall i :: 0 <= i < |c| ==> c[i] != 0.0
  {
    && r.start < r.end < |c|
    && Moves(c, d, r.start + 1) && Moves(c, d, r.end)
    && (LastMove(c, r.start) == 0 || Moves(c, Opposite(d), LastMove(c, r.start)))
    && (NextMove(c, r.end) == |c| || Moves(c, Opposite(d), NextMove(c, r.end)))
    && (forall i :: r.start < i <= r.end ==> Holds(c, d, i))
    && r.length == CountMoves(c, d, r.start, r.end) && r.length > 0
    && r.change == c[r.end] - c[r.start]
    && r.changePct == PctChange(c, r.start, r.end)
  }

  /** Recorded streaks in date order, each ending before the next one starts. */
  ghost predicate DateOrdered(runs: seq<Run>) {
    forall a, b :: 0 <= a < b < |runs| ==> runs[a].end < runs[b].start
  }

  /** The first move after `e` is at `i` when the changes in between are zero. */
  lemma {:induction false} NextMoveAt(c: seq<real>, e: nat, i: nat)
    requires e < i < |c| && Change(c, i) != 0.0
    requires forall j :: e < j < i ==> Change(c, j) == 0.0
    ensures NextMove(c, e) == i
    decreases i - e
  {
    if e + 1 < i {
      NextMoveAt(c, e + 1, i);
    }
  }

  /** There is no move after `e` when every later change is zero. */
  lemma {:induction false} NextMoveNone(c: seq<real>, e: nat)
    requires e < |c|
    requires forall j :: e < j < |c| ==> Change(c, j) == 0.0
    ensures NextMove(c, e) == |c|
    decreases |c| - e
  {
    if e + 1 < |c| {
      NextMoveNone(c, e + 1);
    }
  }

  function MaxLength(runs: seq<Run>): nat {
    if runs == [] then 0
    else var m := MaxLength(runs[..|runs| - 1]); var l := runs[|runs| - 1].length; if m >= l then m else l
  }

  function TotalLength(runs: seq<Run>): nat {
    if runs == [] then 0 else TotalLength(runs[..|runs| - 1]) + runs[|runs| - 1].length
  }

  function CountLength(runs: seq<Run>, k: nat): nat {
    if runs == [] then 0 else CountLength(runs[..|runs| - 1], k) + (if runs[|runs| - 1].length == k then 1 else 0)
  }

  function Changes(runs: seq<Run>): (r: seq<real>)
    ensures |r| == |runs|
  {
    if runs == [] then [] else Changes(runs[..|runs| - 1]) + [runs[|runs| - 1].change]
  }

  function Pcts(runs: seq<Run>): (r: seq<real>)
    ensures |r| == |runs|
  {
    if runs == [] then [] else Pcts(runs[..|runs| - 1]) + [runs[|runs| - 1].changePct]
  }

  function LongOf(runs: seq<Run>): seq<LongStreak> {
    if runs == [] then []
    else var r := runs[|runs| - 1];
      LongOf(runs[..|runs| - 1]) + if r.length > 4 then [LongStreak(r.length, r.start, r.change, r.changePct)] else []
  }

  function MaxOf(s: seq<real>): (m: real)
    requires s != []
    ensures m in s && forall x :: x in s ==> x <= m
  {
    if |s| == 1 then s[0]
    else
      assert s == s[..|s| - 1] + [s[|s| - 1]];
      var m := MaxOf(s[..|s| - 1]); if m >= s[|s| - 1] then m else s[|s| - 1]
  }

  function MinOf(s: seq<real>): (m: real)
    requires s != []
    ensures m in s && forall x :: x in s ==> m <= x
  {
    if |s| == 1 then s[0]
    else
      assert s == s[..|s| - 1] + [s[|s| - 1]];
      var m := MinOf(s[..|s| - 1]); if m <= s[|s| - 1] then m else s[|s| - 1]
  }

  function Sum(s: seq<real>): real {
    if s == [] then 0.0 else Sum(s[..|s| - 1]) + s[|s| - 1]
  }

  function Mean(s: seq<real>): real
    requires s != []
  {
    Sum(s) / |s| as real
  }

  /** The histogram update `hist[k] += 1` of a `defaultdict(int)`. */
  function Bump(hist: map<nat, nat>, k: nat): (r: map<nat, nat>)
    ensures r.Keys == hist.Keys + {k}
    ensures r[k] == (if k in hist then hist[k] else 0) + 1
    ensures forall j :: j in hist && j != k ==> r[j] == hist[j]
  {
    hist[k := (if k in hist then hist[k] else 0) + 1]
  }

  /** The collections the source keeps per direction: the `up_streaks`/`down_streaks` histogram, the
      change and percent-change lists, and the long streaks. */
  datatype StreakLog = StreakLog(counts: map<nat, nat>, changes: seq<real>, pcts: seq<real>, long: seq<LongStreak>)

  const EmptyLog := StreakLog(map[], [], [], [])

  /** The bookkeeping done when a streak ends. */
  function Record(log: StreakLog, length: nat, startDate: nat, change: real, pct: real): StreakLog {
    StreakLog(Bump(log.counts, length), log.changes + [change], log.pcts + [pct],
              if length > 4 then log.long + [LongStreak(length, startDate, change, pct)] else log.long)
  }

  /** The log after recording `runs` in order. */
  ghost function LogOf(runs: seq<Run>): StreakLog {
    if runs == [] then EmptyLog
    else var r := runs[|runs| - 1]; Record(LogOf(runs[..|runs| - 1]), r.length, r.start, r.change, r.changePct)
  }

  /** The log holds, for each length, how many recorded streaks have it, and lists the streaks' changes,
      percent changes and long streaks in order. */
  lemma {:induction false} LogOfRuns(runs: seq<Run>)
    ensures forall k :: k in LogOf(runs).counts <==> CountLength(runs, k) > 0
    ensures forall k :: k in LogOf(runs).counts ==> LogOf(runs).counts[k] == CountLength(runs, k)
    ensures LogOf(runs).changes == Changes(runs) && LogOf(runs).pcts == Pcts(runs) && LogOf(runs).long == LongOf(runs)
  {
    if runs != [] {
      LogOfRuns(runs[..|runs| - 1]);
    }
  }

  /** The streak in progress, of direction `d` and length `cur`, over dates (start, i]. */
  ghost predicate Current(c: seq<real>, d: Direction, i: nat, cur: nat, start: nat, startPrice: real, last: nat,
                          change: real, pct: real)
    requires i < |c|
    requires forall j :: 0 <= j < |c| ==> c[j] != 0.0
  {
    && (cur == 0 ==> change == 0.0 && pct == 0.0)
    && (cur > 0 ==>
          && start < last <= i && startPrice == c[start]
          && Moves(c, d, start + 1) && Moves(c, d, last) && c[last] == c[i]
          && (forall j :: last < j <= i ==> Change(c, j) == 0.0)
          && (LastMove(c, start) == 0 || Moves(c, Opposite(d), LastMove(c, start)))
          && (forall j :: start < j <= i ==> Holds(c, d, j))
          && CountMoves(c, d, start, i) == cur && CountMoves(c, d, start, last) == cur
          && change == c[i] - c[start] && pct == PctChange(c, start, last))
  }

  /** The per-direction variables of the loop: the streak in progress (`current_up_streak`,
      `current_up_change`, `current_up_change_pct`), the maximum streak so far, and the log. */
  datatype Tally = Tally(streak: nat, maxStreak: nat, change: real, pct: real, log: StreakLog)

  const NoTally := Tally(0, 0, 0.0, 0.0, EmptyLog)

  /** Ending the streak in progress: it is recorded and the counters are reset. */
  function EndStreak(t: Tally, startDate: nat): Tally {
    Tally(0, t.maxStreak, 0.0, 0.0, Record(t.log, t.streak, startDate, t.change, t.pct))
  }

  /** A move that starts or continues the streak: one more day, the change accumulated, the percent change
      recomputed, the maximum raised if needed. */
  function Extend(t: Tally, delta: real, pct: real): Tally {
    var n := t.streak + 1;
    Tally(n, if t.maxStreak >= n then t.maxStreak else n, t.change + delta, pct, t.log)
  }

  /** The streak in progress as a recorded run. */
  function RunOf(t: Tally, start: nat, last: nat): Run {
    Run(t.streak, start, last, t.change, t.pct)
  }

  /** Everything the loop knows about one direction after processing the closes up to date `i`: the
      streak in progress, the recorded streaks and their log, and the totals. */
  ghost predicate Sound(c: seq<real>, d: Direction, i: nat, t: Tally, runs: seq<Run>,
                        start: nat, startPrice: real, last: nat)
    requires i < |c|
    requires forall j :: 0 <= j < |c| ==> c[j] != 0.0
  {
    && last <= i
    && Current(c, d, i, t.streak, start, startPrice, last, t.change, t.pct)
    && t.log == LogOf(runs)
    && (forall r :: r in runs ==> RunIn(c, d, r))
    && DateOrdered(runs)
    && (forall r :: r in runs ==> r.end < if t.streak > 0 then start else last)
    && TotalLength(runs) + t.streak == CountMoves(c, d, 0, i)
    && t.maxStreak == if MaxLength(runs) >= t.streak then MaxLength(runs) else t.streak
  }

  function Opposite(d: Direction): Direction {
    if d == Up then Down else Up
  }

  /** The summary agrees with the runs of both directions: totals, maxima, histograms, long streaks,
      and the statistics of the changes. */
  ghost predicate Describes(c: seq<real>, t: TrendSummary, upRuns: seq<Run>, downRuns: seq<Run>)
    requires |c| > 0
    requires forall j :: 0 <= j < |c| ==> c[j] != 0.0
  {
    && (forall r :: r in upRuns ==> RunIn(c, Up, r))
    && (forall r :: r in downRuns ==> RunIn(c, Down, r))
    && DateOrdered(upRuns) && DateOrdered(downRuns)
    && TotalLength(upRuns) == CountMoves(c, Up, 0, |c| - 1)
    && TotalLength(downRuns) == CountMoves(c, Down, 0, |c| - 1)
    && t.maxUpStreak == MaxLength(upRuns) && t.maxDownStreak == MaxLength(downRuns)
    && (forall k :: (k in t.upStreaks <==> CountLength(upRuns, k) > 0)
                     && (k in t.upStreaks ==> t.upStreaks[k] == CountLength(upRuns, k)))
    && (forall k :: (k in t.downStreaks <==> CountLength(downRuns, k) > 0)
                     && (k in t.downStreaks ==> t.downStreaks[k] == CountLength(downRuns, k)))
    && t.longUp == LongOf(upRuns) && t.longDown == LongOf(downRuns)
    && (upRuns == [] ==> t.maxUpChange == 0.0 && t.maxUpChangePct == 0.0 && t.avgUpChange == 0.0 && t.avgUpChangePct == 0.0)
    && (downRuns == [] ==> t.maxDownChange == 0.0 && t.maxDownChangePct == 0.0 && t.avgDownChange == 0.0 && t.avgDownChangePct == 0.0)
    && (upRuns != [] ==>
          && t.maxUpChange == MaxOf(Changes(upRuns)) && t.maxUpChangePct == MaxOf(Pcts(upRuns))
          && t.avgUpChange == Mean(Changes(upRuns)) && t.avgUpChangePct == Mean(Pcts(upRuns)))
    && (downRuns != [] ==>
          && t.maxDownChange == MinOf(Changes(downRuns)) && t.maxDownChangePct == MinOf(Pcts(downRuns))
          && t.avgDownChange == Mean(Changes(downRuns)) && t.avgDownChangePct == Mean(Pcts(downRuns)))
  }

  /** An empty frame raises an IndexError at its first close; otherwise the summary describes the closes. */
  method GetConsecutiveTrends(closes: seq<real>)
    returns (r: Result<TrendSummary>, ghost upRuns: seq<Run>, ghost downRuns: seq<Run>)
    requires forall i :: 0 <= i < |closes| ==> closes[i] != 0.0
    ensures r.Err? <==> |closes| == 0
    ensures r.Err? ==> r.error == IndexError
    ensures r.Ok? ==> |closes| > 0 && Describes(closes, r.value, upRuns, downRuns)
  {
    if |closes| == 0 {
      return Err(IndexError), [], [];
    }
    var up, down := NoTally, NoTally;
    var streakStartPrice := closes[0];
    var streakStartDate: nat := 0;
    ghost var last: nat := 0;
    upRuns, downRuns := [], [];
    for i := 1 to |closes|
      invariant up.streak == 0 || down.streak == 0
      invariant last == LastMove(closes, i - 1) && (last > 0 ==> up.streak > 0 || down.streak > 0)
      invariant Sound(closes, Up, i - 1, up, upRuns, streakStartDate, streakStartPrice, last)
      invariant Sound(closes, Down, i - 1, down, downRuns, streakStartDate, streakStartPrice, last)
    {
      up, down, streakStartDate, streakStartPrice, upRuns, downRuns, last :=
        Step(closes, i, up, upRuns, down, downRuns, streakStartDate, streakStartPrice, last);
    }
    var summary;
    summary, upRuns, downRuns := Finish(closes, up, upRuns, down, downRuns, streakStartDate, streakStartPrice, last);
    r := Ok(summary);
  }

  /** One iteration of the loop, on date `i`: an up move, a down move or no change. */
  method Step(c: seq<real>, i: nat, up: Tally, ghost upRuns: seq<Run>, down: Tally, ghost downRuns: seq<Run>,
              start: nat, startPrice: real, ghost last: nat)
    returns (up': Tally, down': Tally, start': nat, price': real, ghost upRuns': seq<Run>, ghost downRuns': seq<Run>,
             ghost last': nat)
    requires 0 < i < |c|
    requires forall j :: 0 <= j < |c| ==> c[j] != 0.0
    requires up.streak == 0 || down.streak == 0
    requires last == LastMove(c, i - 1) && (last > 0 ==> up.streak > 0 || down.streak > 0)
    requires Sound(c, Up, i - 1, up, upRuns, start, startPrice, last)
    requires Sound(c, Down, i - 1, down, downRuns, start, startPrice, last)
    ensures up'.streak == 0 || down'.streak == 0
    ensures last' == LastMove(c, i) && (last' > 0 ==> up'.streak > 0 || down'.streak > 0)
    ensures Sound(c, Up, i, up', upRuns', start', price', last')
    ensures Sound(c, Down, i, down', downRuns', start', price', last')
  {
    var currentPrice := c[i];
    var currentChange := c[i] - c[i - 1];
    up', down', start', price', upRuns', downRuns', last' := up, down, start, startPrice, upRuns, downRuns, last;
    if currentChange > 0.0 {
      up', down', start', price', downRuns' := Move(c, Up, i, up, upRuns, down, downRuns, start, startPrice, last);
      last' := i;
    } else if currentChange < 0.0 {
      down', up', start', price', upRuns' := Move(c, Down, i, down, downRuns, up, upRuns, start, startPrice, last);
      last' := i;
    } else {
      HoldStep(c, Up, i, up, upRuns, start, startPrice, last);
      HoldStep(c, Down, i, down, downRuns, start, startPrice, last);
    }
  }

  /** After the last close: the streak still in progress is recorded and the dictionary is built. */
  method Finish(c: seq<real>, up: Tally, ghost upRuns: seq<Run>, down: Tally, ghost downRuns: seq<Run>,
                start: nat, startPrice: real, ghost last: nat)
    returns (summary: TrendSummary, ghost upRuns': seq<Run>, ghost downRuns': seq<Run>)
    requires |c| > 0
    requires forall j :: 0 <= j < |c| ==> c[j] != 0.0
    requires up.streak == 0 || down.streak == 0
    requires Sound(c, Up, |c| - 1, up, upRuns, start, startPrice, last)
    requires Sound(c, Down, |c| - 1, down, downRuns, start, startPrice, last)
    ensures Describes(c, summary, upRuns', downRuns')
  {
    FinishStep(c, Up, up, upRuns, start, startPrice, last);
    FinishStep(c, Down, down, downRuns, start, startPrice, last);
    var up', down' := up, down;
    upRuns', downRuns' := upRuns, downRuns;
    // Handle final streak
    if up.streak > 0 {
      upRuns' := upRuns + [RunOf(up, start, last)];
      up' := EndStreak(up, start);
    } else if down.streak > 0 {
      downRuns' := downRuns + [RunOf(down, start, last)];
      down' := EndStreak(down, start);
    }
    Conclude(c, up', down', upRuns', downRuns');
    summary := Summarize(up'.maxStreak, down'.maxStreak, up'.log, down'.log);
  }

  /** Summarising two completed directions describes their runs. */
  lemma Conclude(c: seq<real>, up: Tally, down: Tally, upRuns: seq<Run>, downRuns: seq<Run>)
    requires |c| > 0
    requires forall j :: 0 <= j < |c| ==> c[j] != 0.0
    requires Final(c, Up, up, upRuns) && Final(c, Down, down, downRuns)
    ensures Describes(c, Summarize(up.maxStreak, down.maxStreak, up.log, down.log), upRuns, downRuns)
  {
    LogOfRuns(upRuns);
    LogOfRuns(downRuns);
  }

  /** The dictionary built after the loop. */
  function Summarize(maxUp: nat, maxDown: nat, up: StreakLog, down: StreakLog): TrendSummary {
    TrendSummary(
      maxUp, maxDown, up.counts, down.counts,
      if up.changes != [] then MaxOf(up.changes) else 0.0,
      if down.changes != [] then MinOf(down.changes) else 0.0,
      if up.pcts != [] then MaxOf(up.pcts) else 0.0,
      if down.pcts != [] then MinOf(down.pcts) else 0.0,
      if up.changes != [] then Mean(up.changes) else 0.0,
      if down.changes != [] then Mean(down.changes) else 0.0,
      if up.pcts != [] then Mean(up.pcts) else 0.0,
      if down.pcts != [] then Mean(down.pcts) else 0.0,
      up.long, down.long)
  }

  /** The streak in progress, once recorded, is a streak of `c`, and adding it to the runs adds its length
      to the total and may raise the maximum. */
  lemma RecordRun(c: seq<real>, d: Direction, i: nat, runs: seq<Run>, r: Run, startPrice: real)
    requires 0 < i < |c|
    requires forall j :: 0 <= j < |c| ==> c[j] != 0.0
    requires r.length > 0
    requires Current(c, d, i, r.length, r.start, startPrice, r.end, r.change, r.changePct)
    requires NextMove(c, r.end) == |c| || Moves(c, Opposite(d), NextMove(c, r.end))
    requires DateOrdered(runs) && forall q :: q in runs ==> q.end < r.start
    ensures RunIn(c, d, r) && DateOrdered(runs + [r])
    ensures LogOf(runs + [r]) == Record(LogOf(runs), r.length, r.start, r.change, r.changePct)
    ensures TotalLength(runs + [r]) == TotalLength(runs) + r.length
    ensures MaxLength(runs + [r]) == if MaxLength(runs) >= r.length then MaxLength(runs) else r.length
  {
    var runs' := runs + [r];
    assert runs'[..|runs'| - 1] == runs;
    forall a, b | 0 <= a < b < |runs'| ensures runs'[a].end < runs'[b].start {
      assert runs'[a] in runs;
    }
  }

  /** The loop body for a move in direction `d` on date `i` (an up move when `d` is `Up`, a down move
      otherwise): the opposite streak `o`, if one is in progress, ends and is recorded, and the streak
      `t` of direction `d` starts from the previous close or continues. */
  method Move(c: seq<real>, d: Direction, i: nat, t: Tally, ghost runs: seq<Run>, o: Tally, ghost oRuns: seq<Run>,
              start: nat, startPrice: real, ghost last: nat)
    returns (t': Tally, o': Tally, start': nat, price': real, ghost oRuns': seq<Run>)
    requires 0 < i < |c|
    requires forall j :: 0 <= j < |c| ==> c[j] != 0.0
    requires Moves(c, d, i)
    requires t.streak == 0 || o.streak == 0
    requires last == LastMove(c, i - 1) && (last > 0 ==> t.streak > 0 || o.streak > 0)
    requires Sound(c, d, i - 1, t, runs, start, startPrice, last)
    requires Sound(c, Opposite(d), i - 1, o, oRuns, start, startPrice, last)
    ensures t'.streak == t.streak + 1 && o'.streak == 0
    ensures Sound(c, d, i, t', runs, start', price', i)
    ensures Sound(c, Opposite(d), i, o', oRuns', start', price', i)
  {
    var currentPrice := c[i];
    var currentChange := c[i] - c[i - 1];
    o', oRuns', start', price' := o, oRuns, start, startPrice;
    if o.streak > 0 {
      // End of the opposite streak
      oRuns' := oRuns + [RunOf(o, start, last)];
      o' := EndStreak(o, start);
      start' := i;
      price' := currentPrice;
    }
    // Continue or start the streak
    if t.streak == 0 {
      start' := i - 1;
      price' := c[i - 1];
    }
    assert start' == (if t.streak == 0 then i - 1 else start) && price' == (if t.streak == 0 then c[i - 1] else startPrice);
    assert o' == (if o.streak > 0 then EndStreak(o, start) else o);
    assert t.streak == 0 ==> last == 0 || Moves(c, Opposite(d), last);
    ExtendStep(c, d, i, t, runs, start, startPrice, last, start', price');
    BreakStep(c, d, i, o, oRuns, start, startPrice, last, start', price');
    t' := Extend(t, currentChange, (currentPrice - price') / price' * 100.0);
  }

  /** A move of direction `d` on date `i` starts (from the previous close) or extends the streak of
      direction `d`. */
  lemma ExtendStep(c: seq<real>, d: Direction, i: nat, t: Tally, runs: seq<Run>,
                   start: nat, startPrice: real, last: nat, start': nat, price': real)
    requires 0 < i < |c|
    requires forall j :: 0 <= j < |c| ==> c[j] != 0.0
    requires Moves(c, d, i)
    requires Sound(c, d, i - 1, t, runs, start, startPrice, last)
    requires start' == if t.streak == 0 then i - 1 else start
    requires price' == if t.streak == 0 then c[i - 1] else startPrice
    requires t.streak == 0 ==> LastMove(c, i - 1) == 0 || Moves(c, Opposite(d), LastMove(c, i - 1))
    ensures Sound(c, d, i, Extend(t, c[i] - c[i - 1], (c[i] - price') / price' * 100.0), runs, start', price', i)
  {
    if t.streak == 0 {
      assert CountMoves(c, d, i - 1, i - 1) == 0;
    }
  }

  /** A move of direction `d` on date `i` ends the opposite streak, if one is in progress. */
  lemma BreakStep(c: seq<real>, d: Direction, i: nat, o: Tally, oRuns: seq<Run>,
                  start: nat, startPrice: real, last: nat, start': nat, price': real)
    requires 0 < i < |c|
    requires forall j :: 0 <= j < |c| ==> c[j] != 0.0
    requires Moves(c, d, i)
    requires Sound(c, Opposite(d), i - 1, o, oRuns, start, startPrice, last)
    ensures Sound(c, Opposite(d), i, if o.streak > 0 then EndStreak(o, start) else o,
                  if o.streak > 0 then oRuns + [RunOf(o, start, last)] else oRuns, start', price', i)
  {
    if o.streak > 0 {
      EndRun(c, d, i, o, oRuns, start, startPrice, last, start', price');
    } else {
      assert !Moves(c, Opposite(d), i);
    }
  }

  /** A move of direction `d` on date `i` records the opposite streak in progress. */
  lemma EndRun(c: seq<real>, d: Direction, i: nat, o: Tally, oRuns: seq<Run>,
               start: nat, startPrice: real, last: nat, start': nat, price': real)
    requires 0 < i < |c|
    requires forall j :: 0 <= j < |c| ==> c[j] != 0.0
    requires Moves(c, d, i) && o.streak > 0
    requires Sound(c, Opposite(d), i - 1, o, oRuns, start, startPrice, last)
    ensures Sound(c, Opposite(d), i, EndStreak(o, start), oRuns + [RunOf(o, start, last)], start', price', i)
  {
    var r := RunOf(o, start, last);
    var runs' := oRuns + [r];
    assert !Moves(c, Opposite(d), i);
    assert CountMoves(c, Opposite(d), 0, i) == CountMoves(c, Opposite(d), 0, i - 1);
    NextMoveAt(c, last, i);
    RecordRun(c, Opposite(d), i - 1, oRuns, r, startPrice);
    forall q | q in runs' ensures RunIn(c, Opposite(d), q) && q.end < i {
      if q in oRuns {
        assert q.end < start;
      }
    }
  }

  /** A zero change on date `i` leaves a direction as it is. */
  lemma HoldStep(c: seq<real>, d: Direction, i: nat, t: Tally, runs: seq<Run>,
                 start: nat, startPrice: real, last: nat)
    requires 0 < i < |c|
    requires forall j :: 0 <= j < |c| ==> c[j] != 0.0
    requires c[i] == c[i - 1]
    requires Sound(c, d, i - 1, t, runs, start, startPrice, last)
    ensures Sound(c, d, i, t, runs, start, startPrice, last)
  {
  }

  /** What holds of one direction once the loop is over and the final streak is recorded. */
  ghost predicate Final(c: seq<real>, d: Direction, t: Tally, runs: seq<Run>)
    requires |c| > 0
    requires forall j :: 0 <= j < |c| ==> c[j] != 0.0
  {
    && t.log == LogOf(runs)
    && (forall r :: r in runs ==> RunIn(c, d, r))
    && DateOrdered(runs)
    && TotalLength(runs) == CountMoves(c, d, 0, |c| - 1)
    && t.maxStreak == MaxLength(runs)
  }

  /** Recording the streak still in progress after the last close completes the runs. */
  lemma FinishStep(c: seq<real>, d: Direction, t: Tally, runs: seq<Run>, start: nat, startPrice: real, last: nat)
    requires |c| > 0
    requires forall j :: 0 <= j < |c| ==> c[j] != 0.0
    requires Sound(c, d, |c| - 1, t, runs, start, startPrice, last)
    ensures t.streak > 0 ==> Final(c, d, EndStreak(t, start), runs + [RunOf(t, start, last)])
    ensures t.streak == 0 ==> Final(c, d, t, runs)
  {
    if t.streak > 0 {
      NextMoveNone(c, last);
      RecordRun(c, d, |c| - 1, runs, RunOf(t, start, last), startPrice);
    }
  }

  /** The maximum streak length is the length of a recorded streak and bounds all of them. */
  lemma {:induction false} MaxLengthIsMaximum(runs: seq<Run>)
    ensures forall r :: r in runs ==> r.length <= MaxLength(runs)
    ensures runs != [] ==> exists r :: r in runs && r.length == MaxLength(runs)
  {
    if runs != [] {
      var prefix := runs[..|runs| - 1];
      MaxLengthIsMaximum(prefix);
      assert runs == prefix + [runs[|runs| - 1]];
      if prefix != [] && MaxLength(prefix) >= runs[|runs| - 1].length {
        var r :| r in prefix && r.length == MaxLength(prefix);
        assert r in runs;
      }
    }
  }

  /** The long streaks are exactly the recorded streaks longer than four days. */
  lemma {:induction false} LongOfExactly(runs: seq<Run>)
    ensures forall l :: l in LongOf(runs) <==>
      exists r :: r in runs && r.length > 4 && l == LongStreak(r.length, r.start, r.change, r.changePct)
  {
    if runs != [] {
      var prefix := runs[..|runs| - 1];
      LongOfExactly(prefix);
      assert runs == prefix + [runs[|runs| - 1]];
    }
  }
}
