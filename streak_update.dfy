/** The incremental streak update of `DatabaseUpdater.update_streaks` (update_database.py): the ongoing
    streak is carried over a run of new daily closes, and every streak of more than four days that ends,
    or is still open at the end, is saved. The stored close that the source reads from its database is a
    parameter, and the saves are returned as a list. */
module StreakUpdate {
  import opened Wrappers

  datatype Kind = Up | Down

  /** The `current_streak` dictionary; dates are day numbers. */
  datatype Streak = Streak(kind: Kind, startDate: int, endDate: int, length: nat, totalChange: real, totalChangePct: real)

  /** One row of the new data: its date and close. */
  datatype DailyClose = DailyClose(date: int, close: real)

  /** How the update ended: no new data, every day processed, the stored close missing (`float(None)`),
      or a division by a zero close. */
  datatype Outcome = NoData | Completed | MissingStoredClose | ZeroDivision

  /** The change of a day continues a streak of kind `k`. */
  predicate Continues(k: Kind, change: real) {
    (k == Up && change > 0.0) || (k == Down && change < 0.0)
  }

  /** The close before day `i`: the stored close for the first day, the previous day's close afterwards. */
  function PrevClose(days: seq<DailyClose>, i: nat, stored: real): real
    requires i < |days|
  {
    if i == 0 then stored else days[i - 1].close
  }

  /** A streak is saved only when it is longer than four days. */
  function SaveIfLong(s: Streak): (r: seq<Streak>)
    ensures r == [] || r == [s]
    ensures r == [s] <==> s.length > 4
  {
    if s.length > 4 then [s] else []
  }

  /** The state after some days: the streak in progress and the streaks saved so far, or the saves made
      before a division by zero stopped the update. */
  datatype Progress = Running(current: Streak, saved: seq<Streak>) | Stopped(saved: seq<Streak>)

  /** One day of the loop. */
  function Step(p: Progress, day: DailyClose, prevPrice: real, stored: real): Progress {
    match p
    case Stopped(_) => p
    case Running(cur, saved) =>
      var change := day.close - prevPrice;
      if Continues(cur.kind, change) then
        if stored == 0.0 then Stopped(saved)
        else Running(cur.(length := cur.length + 1, endDate := day.date, totalChange := cur.totalChange + change,
                          totalChangePct := (day.close - stored) / stored * 100.0), saved)
      else
        var saved' := saved + SaveIfLong(cur);
        if prevPrice == 0.0 then Stopped(saved')
        else Running(Streak(if change > 0.0 then Up else Down, day.date, day.date, 1, change, change / prevPrice * 100.0),
                     saved')
  }

  /** The state after the first `n` days. */
  function Replay(ongoing: Streak, days: seq<DailyClose>, n: nat, stored: real): Progress
    requires n <= |days|
  {
    if n == 0 then Running(ongoing, [])
    else Step(Replay(ongoing, days, n - 1, stored), days[n - 1], PrevClose(days, n - 1, stored), stored)
  }

  method UpdateStreaks(ongoing: Streak, days: seq<DailyClose>, storedClose: Option<real>)
    returns (saved: seq<Streak>, outcome: Outcome)
    ensures days == [] ==> saved == [] && outcome == NoData
    ensures days != [] && storedClose == None ==> saved == [] && outcome == MissingStoredClose
    ensures days != [] && storedClose != None ==>
      match Replay(ongoing, days, |days|, storedClose.value)
      case Running(cur, s) => saved == s + SaveIfLong(cur) && outcome == Completed
      case Stopped(s) => saved == s && outcome == ZeroDivision
  {
    saved := [];
    if days == [] {
      return saved, NoData;
    }
    if storedClose == None {
      return saved, MissingStoredClose;
    }
    var prevClose := storedClose.value;
    var currentStreak := ongoing;
    for i := 0 to |days|
      invariant Replay(ongoing, days, i, prevClose) == Running(currentStreak, saved)
    {
      var date := days[i].date;
      var closePrice := days[i].close;
      var prevPrice := if i == 0 then prevClose else days[i - 1].close;
      var dailyChange := closePrice - prevPrice;
      if Continues(currentStreak.kind, dailyChange) {
        // Streak continues
        if prevClose == 0.0 {
          assert Replay(ongoing, days, i + 1, prevClose) == Stopped(saved);
          StoppedStays(ongoing, days, i + 1, |days|, prevClose);
          return saved, ZeroDivision;
        }
        currentStreak := currentStreak.(length := currentStreak.length + 1, endDate := date,
          totalChange := currentStreak.totalChange + dailyChange,
          totalChangePct := (closePrice - prevClose) / prevClose * 100.0);
      } else {
        // Streak ends, save it and start new one
        if currentStreak.length > 4 {
          saved := saved + [currentStreak];
        }
        if prevPrice == 0.0 {
          assert Replay(ongoing, days, i + 1, prevClose) == Stopped(saved);
          StoppedStays(ongoing, days, i + 1, |days|, prevClose);
          return saved, ZeroDivision;
        }
        currentStreak := Streak(if dailyChange > 0.0 then Up else Down, date, date, 1, dailyChange,
                                dailyChange / prevPrice * 100.0);
      }
    }
    // Save final streak if it's long enough
    if currentStreak.length > 4 {
      saved := saved + [currentStreak];
    }
    outcome := Completed;
  }

  /** Once stopped, the update stays stopped with the same saves. */
  lemma {:induction false} StoppedStays(ongoing: Streak, days: seq<DailyClose>, m: nat, n: nat, stored: real)
    requires m <= n <= |days|
    requires Replay(ongoing, days, m, stored).Stopped?
    ensures Replay(ongoing, days, n, stored) == Replay(ongoing, days, m, stored)
  {
    if n > m {
      StoppedStays(ongoing, days, m, n - 1, stored);
    }
  }

  /** Every saved streak is longer than four days, and the saves only grow. */
  lemma {:induction false} SavedAreLong(ongoing: Streak, days: seq<DailyClose>, n: nat, stored: real)
    requires n <= |days|
    ensures forall s :: s in Replay(ongoing, days, n, stored).saved ==> s.length > 4
  {
    if n > 0 {
      SavedAreLong(ongoing, days, n - 1, stored);
    }
  }

  /** A streak that ends is replaced by a one-day streak starting on the breaking day, of kind up exactly
      when the change is positive; the ended streak is saved exactly when it is longer than four days. */
  lemma BreakStartsNewStreak(cur: Streak, saved: seq<Streak>, day: DailyClose, prevPrice: real, stored: real)
    requires !Continues(cur.kind, day.close - prevPrice) && prevPrice != 0.0
    ensures var p := Step(Running(cur, saved), day, prevPrice, stored);
      && p.Running?
      && p.current.startDate == day.date && p.current.endDate == day.date && p.current.length == 1
      && (p.current.kind == Up <==> day.close > prevPrice)
      && p.current.totalChange == day.close - prevPrice
      && (p.saved == saved + [cur] <==> cur.length > 4)
      && (cur.length <= 4 ==> p.saved == saved)
  {
  }

  /** When every new day moves in the ongoing streak's direction, the streak is extended by all of them:
      its length grows by the number of days, it ends on the last day, its total change grows by the
      change from the stored close to the last close, its percent change is measured from the stored
      close, and nothing is saved before the end. */
  lemma {:induction false} AllDaysExtend(ongoing: Streak, days: seq<DailyClose>, n: nat, stored: real)
    requires 0 < n <= |days| && stored != 0.0
    requires forall i :: 0 <= i < n ==> Continues(ongoing.kind, days[i].close - PrevClose(days, i, stored))
    ensures Replay(ongoing, days, n, stored) ==
      Running(ongoing.(length := ongoing.length + n, endDate := days[n - 1].date,
                       totalChange := ongoing.totalChange + (days[n - 1].close - stored),
                       totalChangePct := (days[n - 1].close - stored) / stored * 100.0), [])
  {
    if n > 1 {
      AllDaysExtend(ongoing, days, n - 1, stored);
      assert Continues(ongoing.kind, days[n - 1].close - PrevClose(days, n - 1, stored));
    } else {
      assert Continues(ongoing.kind, days[0].close - PrevClose(days, 0, stored));
    }
  }
}
