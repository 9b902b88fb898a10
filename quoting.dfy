/** The pricing arithmetic of the market-making strategy: volatility, spreads around the mid price and quote
    sizes against the inventory. */
module Quoting {
  import opened Wrappers

  /** The strategy's settings, as given to the constructor. */
  datatype Params = Params(maxPosition: real, targetSpread: real, positionLimit: real, riskFactor: real,
                           orderSize: real, minSpread: real, maxSpread: real, volatilityWindow: int,
                           inventoryTarget: real)

  /** The constructor's defaults: a 2% target spread clamped into [0.1%, 5%], a position limit of 5000, risk
      factor 0.5, quotes of 100 and a volatility window of 100 samples. */
  const Defaults := Params(1000.0, 0.02, 5000.0, 0.5, 100.0, 0.001, 0.05, 100, 0.0)

  /** The volatility over the last `volatilityWindow` samples: 0 with fewer than two samples; converting a
      missing trade price to a float raises a TypeError; otherwise `estimate`, which stands for the
      floating-point estimate from the samples. */
  function Volatility(p: Params, samples: seq<Option<real>>, estimate: real): (r: Result<real>)
    ensures |PyFrom(samples, -p.volatilityWindow)| < 2 ==> r == Ok(0.0)
    ensures r.Err? ==> r.error == TypeError && None in PyFrom(samples, -p.volatilityWindow)
    ensures r.Ok? && r.value != 0.0 ==> r.value == estimate
  {
    var window := PyFrom(samples, -p.volatilityWindow);
    if |window| < 2 then Ok(0.0)
    else if None in window then Err(TypeError)
    else Ok(estimate)
  }

  /** The position as a fraction of the position limit, as a decimal division. */
  function InventoryRatio(q: real, limit: real): Result<real> {
    DecimalQuotient(q, limit)
  }

  /** `x` clamped into [lo, hi] as `max(min(x, hi), lo)`. */
  function Clamp(x: real, lo: real, hi: real): (r: real)
    ensures lo <= hi ==> lo <= r <= hi
    ensures lo <= x <= hi ==> r == x
    ensures hi < lo ==> r == lo
  {
    Max(Min(x, hi), lo)
  }

  lemma ClampMonotone(x: real, y: real, lo: real, hi: real)
    requires x <= y
    ensures Clamp(x, lo, hi) <= Clamp(y, lo, hi)
  {
  }

  /** `1 - x` and `1 + x`, the factors a spread or a size is scaled by. */
  function OneMinus(x: real): real {
    1.0 - x
  }

  function OnePlus(x: real): real {
    1.0 + x
  }

  /** Scaling `x` by `1 - f` or `1 + f` moves it by `x * f`. */
  lemma Distribute(x: real, f: real)
    ensures x * OneMinus(f) == x - x * f && x * OnePlus(f) == x + x * f
  {
  }

  /** Half the target spread, widened by the volatility. */
  function Half(p: Params, volatility: real): real {
    p.targetSpread * OnePlus(volatility) / 2.0
  }

  /** The inventory skew: the risk factor times the position's share of the limit. */
  function Skew(p: Params, ratio: real): real {
    p.riskFactor * ratio
  }

  /** The bid and ask half-spreads, as fractions of the mid price: the half spread skewed by inventory and
      clamped into [minSpread, maxSpread]. */
  function HalfSpreads(p: Params, volatility: real, ratio: real): (r: (real, real))
    ensures p.minSpread <= p.maxSpread ==>
              p.minSpread <= r.0 <= p.maxSpread && p.minSpread <= r.1 <= p.maxSpread
  {
    var half, skew := Half(p, volatility), Skew(p, ratio);
    (Side(p, half, OneMinus(skew)), Side(p, half, OnePlus(skew)))
  }

  /** One half-spread: the half spread scaled by a skew factor and clamped into [minSpread, maxSpread]. */
  function Side(p: Params, half: real, factor: real): (r: real)
    ensures p.minSpread <= p.maxSpread ==> p.minSpread <= r <= p.maxSpread
  {
    Clamp(half * factor, p.minSpread, p.maxSpread)
  }

  /** The bid and ask prices around the mid price. */
  function QuotePrices(p: Params, volatility: real, ratio: real, mid: real): (real, real) {
    var spreads := HalfSpreads(p, volatility, ratio);
    (mid * OneMinus(spreads.0), mid * OnePlus(spreads.1))
  }

  lemma Straddles(mid: real, b: real, a: real)
    requires mid > 0.0 && b > 0.0 && a > 0.0
    ensures mid * OneMinus(b) < mid < mid * OnePlus(a)
    ensures b < 1.0 ==> 0.0 < mid * OneMinus(b)
  {
    Distribute(mid, b);
    Distribute(mid, a);
    var mb, ma := mid * b, mid * a;
    assert mb > 0.0 && ma > 0.0;
    if b < 1.0 {
      var below := mid * OneMinus(b);
      assert OneMinus(b) > 0.0;
      assert below > 0.0;
    }
  }

  /** With a positive minimum spread no larger than the maximum, the bid is below and the ask above a
      positive mid price; with a maximum spread below 100% the bid stays positive. */
  lemma QuotesStraddleMid(p: Params, volatility: real, ratio: real, mid: real)
    requires 0.0 < p.minSpread <= p.maxSpread && mid > 0.0
    ensures var prices := QuotePrices(p, volatility, ratio, mid);
            && prices.0 < mid < prices.1
            && (p.maxSpread < 1.0 ==> 0.0 < prices.0)
  {
    var spreads := HalfSpreads(p, volatility, ratio);
    assert 0.0 < spreads.0 <= p.maxSpread && 0.0 < spreads.1;
    Straddles(mid, spreads.0, spreads.1);
  }

  /** Without inventory skew the two half-spreads are equal and the quotes sit symmetrically around the mid. */
  lemma ZeroInventorySymmetric(p: Params, volatility: real, ratio: real, mid: real)
    requires Skew(p, ratio) == 0.0
    ensures HalfSpreads(p, volatility, ratio).0 == HalfSpreads(p, volatility, ratio).1
    ensures var prices := QuotePrices(p, volatility, ratio, mid); mid - prices.0 == prices.1 - mid
  {
    var spreads := HalfSpreads(p, volatility, ratio);
    assert OneMinus(Skew(p, ratio)) == OnePlus(Skew(p, ratio));
    Distribute(mid, spreads.0);
  }

  lemma ScaleMonotone(x: real, y: real, f: real)
    requires x <= y && f >= 0.0
    ensures x * f <= y * f
  {
  }

  lemma HalfMonotone(p: Params, v1: real, v2: real)
    requires v1 <= v2 && p.targetSpread >= 0.0
    ensures Half(p, v1) <= Half(p, v2)
  {
    var a, b := p.targetSpread * OnePlus(v1), p.targetSpread * OnePlus(v2);
    assert a == OnePlus(v1) * p.targetSpread && b == OnePlus(v2) * p.targetSpread;
    ScaleMonotone(OnePlus(v1), OnePlus(v2), p.targetSpread);
    assert a <= b;
  }

  /** For a fixed inventory skew within [-1, 1] and a non-negative target spread, more volatility never narrows
      either half-spread. */
  lemma VolatilityWidens(p: Params, v1: real, v2: real, ratio: real)
    requires v1 <= v2 && p.targetSpread >= 0.0 && -1.0 <= Skew(p, ratio) <= 1.0
    ensures HalfSpreads(p, v1, ratio).0 <= HalfSpreads(p, v2, ratio).0
    ensures HalfSpreads(p, v1, ratio).1 <= HalfSpreads(p, v2, ratio).1
  {
    var skew, h1, h2 := Skew(p, ratio), Half(p, v1), Half(p, v2);
    var down, up := OneMinus(skew), OnePlus(skew);
    HalfMonotone(p, v1, v2);
    assert h1 <= h2 && down >= 0.0 && up >= 0.0;
    SideMonotone(p, h1, h2, down);
    SideMonotone(p, h1, h2, up);
  }

  lemma SideMonotone(p: Params, h1: real, h2: real, f: real)
    requires h1 <= h2 && f >= 0.0
    ensures Side(p, h1, f) <= Side(p, h2, f)
  {
    var a, b := h1 * f, h2 * f;
    ScaleMonotone(h1, h2, f);
    assert a <= b;
    ClampMonotone(a, b, p.minSpread, p.maxSpread);
  }

  lemma SkewScales(h: real, skew: real)
    requires h >= 0.0
    ensures skew >= 0.0 ==> h * OneMinus(skew) <= h * OnePlus(skew)
    ensures skew <= 0.0 ==> h * OnePlus(skew) <= h * OneMinus(skew)
  {
    Distribute(h, skew);
    var hs := h * skew;
    if skew >= 0.0 {
      assert hs >= 0.0;
    } else {
      assert hs <= 0.0;
    }
  }

  /** The direction of the price skew: with a long inventory (positive skew) the bid half-spread is the
      narrower one, so the bid sits nearer the mid than the ask; with a short inventory it is the other way
      round. */
  lemma SkewDirection(p: Params, volatility: real, ratio: real)
    requires p.targetSpread >= 0.0 && volatility >= -1.0
    ensures var spreads := HalfSpreads(p, volatility, ratio);
            && (Skew(p, ratio) >= 0.0 ==> spreads.0 <= spreads.1)
            && (Skew(p, ratio) <= 0.0 ==> spreads.1 <= spreads.0)
  {
    var skew, h := Skew(p, ratio), Half(p, volatility);
    HalfNonNegative(p, volatility);
    SkewScales(h, skew);
    if skew >= 0.0 {
      SideOrder(p, h, OneMinus(skew), OnePlus(skew));
    }
    if skew <= 0.0 {
      SideOrder(p, h, OnePlus(skew), OneMinus(skew));
    }
  }

  lemma HalfNonNegative(p: Params, volatility: real)
    requires p.targetSpread >= 0.0 && volatility >= -1.0
    ensures Half(p, volatility) >= 0.0
  {
    HalfMonotone(p, -1.0, volatility);
    assert Half(p, -1.0) == 0.0;
  }

  lemma SideOrder(p: Params, h: real, f1: real, f2: real)
    requires h * f1 <= h * f2
    ensures Side(p, h, f1) <= Side(p, h, f2)
  {
    var x, y := h * f1, h * f2;
    assert x <= y;
    ClampMonotone(x, y, p.minSpread, p.maxSpread);
  }

  /** The bid and ask sizes: when long, the bid shrinks and the ask grows by the position's share of the limit
      (at most 100%); when short, the other way round. */
  function QuoteSizes(p: Params, q: real): (real, real)
    requires q != 0.0 ==> p.positionLimit != 0.0
  {
    if q > 0.0 then
      var adjustment := Min(q / p.positionLimit, 1.0);
      (p.orderSize * OneMinus(adjustment), p.orderSize * OnePlus(adjustment))
    else if q < 0.0 then
      var adjustment := Min(Abs(q) / p.positionLimit, 1.0);
      (p.orderSize * OnePlus(adjustment), p.orderSize * OneMinus(adjustment))
    else (p.orderSize, p.orderSize)
  }

  lemma Scaled(size: real, adjustment: real)
    requires size >= 0.0 && 0.0 <= adjustment <= 1.0
    ensures 0.0 <= size * OneMinus(adjustment) <= size <= size * OnePlus(adjustment)
  {
    Distribute(size, adjustment);
    var sa := size * adjustment;
    assert sa >= 0.0;
    assert sa <= size;
  }

  /** With a positive limit and a non-negative order size, a long position quotes a smaller bid and a larger
      ask than the order size, a short one the reverse, and no size is negative. */
  lemma SizesLeanAgainstInventory(p: Params, q: real)
    requires p.positionLimit > 0.0 && p.orderSize >= 0.0
    ensures var sizes := QuoteSizes(p, q);
            && (q > 0.0 ==> 0.0 <= sizes.0 <= p.orderSize <= sizes.1)
            && (q < 0.0 ==> 0.0 <= sizes.1 <= p.orderSize <= sizes.0)
            && (q == 0.0 ==> sizes.0 == p.orderSize && sizes.1 == p.orderSize)
  {
    if q != 0.0 {
      var share := Abs(q) / p.positionLimit;
      assert share > 0.0;
      Scaled(p.orderSize, Min(share, 1.0));
    }
  }
}
