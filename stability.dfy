/** The stable-or-important screen of `is_stable_or_important` (test_stable_companies.py). */
module Stability {
  import opened Wrappers

  /** The stability metrics of one company; `beta` is carried but never read by the screen. */
  datatype Metrics = Metrics(volatility: real, marketCap: real, avgVolume: real, beta: Option<real>)

  /** Default thresholds: a $10B market cap, 30% annual volatility, 1M shares of daily volume. */
  const DefaultMinMarketCap: real := 10000000000.0
  const DefaultMaxVolatility: real := 0.3
  const DefaultMinAvgVolume: real := 1000000.0

  /** A company passes if it is large, or both stable and liquid; absent metrics never pass. */
  function IsStableOrImportant(metrics: Option<Metrics>, minMarketCap: real, maxVolatility: real,
                               minAvgVolume: real): (r: bool)
    ensures metrics.None? ==> !r
    ensures metrics.Some? && metrics.value.marketCap >= minMarketCap ==> r
    ensures metrics.Some? && metrics.value.marketCap < minMarketCap ==>
              (r <==> metrics.value.volatility <= maxVolatility && metrics.value.avgVolume >= minAvgVolume)
  {
    match metrics
    case None => false
    case Some(m) =>
      var isLarge := m.marketCap >= minMarketCap;
      var isStable := m.volatility <= maxVolatility;
      var isLiquid := m.avgVolume >= minAvgVolume;
      isLarge || (isStable && isLiquid)
  }

  /** The screen with the default thresholds of the source. */
  function IsStableOrImportantByDefault(metrics: Option<Metrics>): bool
  {
    IsStableOrImportant(metrics, DefaultMinMarketCap, DefaultMaxVolatility, DefaultMinAvgVolume)
  }

  /** Every threshold is inclusive: metrics sitting exactly on the thresholds pass, by either route. */
  lemma ThresholdsInclusive(minMarketCap: real, maxVolatility: real, minAvgVolume: real, beta: Option<real>)
    ensures IsStableOrImportant(Some(Metrics(0.0, minMarketCap, 0.0, beta)), minMarketCap, maxVolatility, minAvgVolume)
    ensures minAvgVolume > 0.0 ==>
              IsStableOrImportant(Some(Metrics(maxVolatility, minMarketCap - 1.0, minAvgVolume, beta)),
                                  minMarketCap, maxVolatility, minAvgVolume)
  {
  }

  /** Loosening the thresholds (smaller cap and volume minimums, larger volatility maximum) never
      turns a passing company into a failing one. */
  lemma LooserThresholdsKeepPassing(metrics: Option<Metrics>,
                                    cap1: real, vol1: real, volume1: real,
                                    cap2: real, vol2: real, volume2: real)
    requires cap2 <= cap1 && vol2 >= vol1 && volume2 <= volume1
    requires IsStableOrImportant(metrics, cap1, vol1, volume1)
    ensures IsStableOrImportant(metrics, cap2, vol2, volume2)
  {
  }
}
