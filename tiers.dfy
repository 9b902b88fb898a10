/** The tiering of `create_tiers` (simple_pricing_info_portfolio.py): walk a portfolio in its
    dictionary order, accumulate the weights, and put each company into Basic and Standard while the
    cumulative weight is within that tier's threshold; Premium takes every company. */
module Tiers {

  /** A portfolio is a dictionary from company to weight, kept here in its iteration order. */
  type Portfolio = seq<(string, real)>

  datatype TierLists = TierLists(basic: seq<string>, standard: seq<string>, premium: seq<string>)

  /** The companies of a portfolio, in order. */
  function Names(p: Portfolio): (r: seq<string>)
    ensures |r| == |p| && forall i :: 0 <= i < |p| ==> r[i] == p[i].0
  {
    if p == [] then [] else Names(p[..|p| - 1]) + [p[|p| - 1].0]
  }

  /** The cumulative weight of the first `n` companies. */
  function CumulativeWeight(p: Portfolio, n: nat): real
    requires n <= |p|
  {
    if n == 0 then 0.0 else CumulativeWeight(p, n - 1) + p[n - 1].1
  }

  /** The companies, among the first `n`, whose cumulative weight through them is within `threshold`. */
  function Tier(p: Portfolio, threshold: real, n: nat): seq<string>
    requires n <= |p|
  {
    if n == 0 then []
    else Tier(p, threshold, n - 1) + (if CumulativeWeight(p, n) <= threshold then [p[n - 1].0] else [])
  }

  /** `a` is obtained from `b` by deleting elements: it keeps `b`'s order. */
  predicate IsSubsequence<T(==)>(a: seq<T>, b: seq<T>)
    decreases |b|
  {
    |a| <= |b| && (a == [] || (a[|a| - 1] == b[|b| - 1] && IsSubsequence(a[..|a| - 1], b[..|b| - 1]))
                          || IsSubsequence(a, b[..|b| - 1]))
  }

  method CreateTiers(portfolio: Portfolio, basicThreshold: real, standardThreshold: real)
    returns (tiers: TierLists)
    ensures tiers.premium == Names(portfolio)
    ensures tiers.basic == Tier(portfolio, basicThreshold, |portfolio|)
    ensures tiers.standard == Tier(portfolio, standardThreshold, |portfolio|)
  {
    var cumulativeWeight := 0.0;
    var basic, standard, premium := [], [], [];
    for i := 0 to |portfolio|
      invariant cumulativeWeight == CumulativeWeight(portfolio, i)
      invariant basic == Tier(portfolio, basicThreshold, i)
      invariant standard == Tier(portfolio, standardThreshold, i)
      invariant premium == Names(portfolio[..i])
    {
      var (company, weight) := portfolio[i];
      cumulativeWeight := cumulativeWeight + weight;
      if cumulativeWeight <= basicThreshold {
        basic := basic + [company];
      }
      if cumulativeWeight <= standardThreshold {
        standard := standard + [company];
      }
      premium := premium + [company];
      assert portfolio[..i + 1][..i] == portfolio[..i];
    }
    assert portfolio[..|portfolio|] == portfolio;
    tiers := TierLists(basic, standard, premium);
  }

  /** A company at position `i` (names being distinct, as dictionary keys are) is in a tier iff the
      cumulative weight through it is within the tier's threshold. */
  lemma {:induction false} TierMembership(p: Portfolio, threshold: real, n: nat, i: nat)
    requires n <= |p| && i < |p|
    requires forall a, b :: 0 <= a < b < |p| ==> p[a].0 != p[b].0
    ensures p[i].0 in Tier(p, threshold, n) <==> i < n && CumulativeWeight(p, i + 1) <= threshold
  {
    if n > 0 {
      TierMembership(p, threshold, n - 1, i);
      if i != n - 1 {
        assert p[i].0 != p[n - 1].0;
      }
    }
  }

  /** The cumulative weight never decreases along a portfolio of non-negative weights. */
  lemma {:induction false} CumulativeWeightMonotone(p: Portfolio, m: nat, n: nat)
    requires m <= n <= |p|
    requires forall i :: 0 <= i < |p| ==> p[i].1 >= 0.0
    ensures CumulativeWeight(p, m) <= CumulativeWeight(p, n)
  {
    if m < n {
      CumulativeWeightMonotone(p, m, n - 1);
    }
  }

  /** With non-negative weights a tier is a prefix of the portfolio's companies. */
  lemma {:induction false} TierIsPrefix(p: Portfolio, threshold: real, n: nat)
    requires n <= |p|
    requires forall i :: 0 <= i < |p| ==> p[i].1 >= 0.0
    ensures |Tier(p, threshold, n)| <= n
    ensures Tier(p, threshold, n) == Names(p)[..|Tier(p, threshold, n)|]
    ensures |Tier(p, threshold, n)| < n ==> CumulativeWeight(p, |Tier(p, threshold, n)| + 1) > threshold
  {
    if n > 0 {
      TierIsPrefix(p, threshold, n - 1);
      var t := Tier(p, threshold, n - 1);
      if CumulativeWeight(p, n) <= threshold {
        if |t| < n - 1 {
          CumulativeWeightMonotone(p, |t| + 1, n);
          assert false;
        }
        assert Tier(p, threshold, n) == Names(p)[..n];
      } else {
        assert Tier(p, threshold, n) == t;
        if |t| == n - 1 {
          assert CumulativeWeight(p, |t| + 1) > threshold;
        }
      }
    }
  }

  /** A smaller threshold selects fewer companies: Basic is contained in Standard when its
      threshold is not larger. */
  lemma {:induction false} TierGrowsWithThreshold(p: Portfolio, low: real, high: real, n: nat)
    requires n <= |p|
    requires low <= high
    ensures IsSubsequence(Tier(p, low, n), Tier(p, high, n))
    ensures forall x :: x in Tier(p, low, n) ==> x in Tier(p, high, n)
  {
    if n > 0 {
      TierGrowsWithThreshold(p, low, high, n - 1);
      var a, b, x := Tier(p, low, n - 1), Tier(p, high, n - 1), p[n - 1].0;
      if CumulativeWeight(p, n) <= low {
        assert Tier(p, low, n) == a + [x];
        assert Tier(p, high, n) == b + [x];
        assert (a + [x])[..|a|] == a;
        assert (b + [x])[..|b|] == b;
      } else if CumulativeWeight(p, n) <= high {
        assert Tier(p, low, n) == a;
        assert Tier(p, high, n) == b + [x];
        SubsequenceOfLonger(a, b, x);
      } else {
        assert Tier(p, low, n) == a;
        assert Tier(p, high, n) == b;
      }
      SubsequenceMembers(Tier(p, low, n), Tier(p, high, n));
    }
  }

  /** Every tier keeps the portfolio's order. */
  lemma {:induction false} TierKeepsOrder(p: Portfolio, threshold: real, n: nat)
    requires n <= |p|
    ensures IsSubsequence(Tier(p, threshold, n), Names(p[..n]))
  {
    if n > 0 {
      TierKeepsOrder(p, threshold, n - 1);
      var t, names := Tier(p, threshold, n - 1), Names(p[..n - 1]);
      assert p[..n][..n - 1] == p[..n - 1];
      assert Names(p[..n]) == names + [p[n - 1].0];
      assert (names + [p[n - 1].0])[..|names|] == names;
      if CumulativeWeight(p, n) <= threshold {
        assert Tier(p, threshold, n) == t + [p[n - 1].0];
        assert (t + [p[n - 1].0])[..|t|] == t;
      } else {
        assert Tier(p, threshold, n) == t;
        SubsequenceOfLonger(t, names, p[n - 1].0);
      }
    }
  }

  lemma SubsequenceOfLonger<T>(a: seq<T>, b: seq<T>, x: T)
    requires IsSubsequence(a, b)
    ensures IsSubsequence(a, b + [x])
  {
    assert (b + [x])[..|b|] == b;
  }

  lemma {:induction false} SubsequenceMembers<T>(a: seq<T>, b: seq<T>)
    requires IsSubsequence(a, b)
    ensures forall x :: x in a ==> x in b
    decreases |b|
  {
    if a != [] {
      if a[|a| - 1] == b[|b| - 1] && IsSubsequence(a[..|a| - 1], b[..|b| - 1]) {
        SubsequenceMembers(a[..|a| - 1], b[..|b| - 1]);
        assert a == a[..|a| - 1] + [a[|a| - 1]];
        assert b == b[..|b| - 1] + [b[|b| - 1]];
      } else {
        SubsequenceMembers(a, b[..|b| - 1]);
        assert b == b[..|b| - 1] + [b[|b| - 1]];
      }
    }
  }
}
