/** The frequency and probability distribution of streak lengths computed by
    `calculate_streak_distribution` (test_analyze_streaks_entropy.py). */
module StreakDistribution {
  import opened Wrappers

  /** Number of occurrences of `k` in `s`. */
  function Count(s: seq<int>, k: int): nat {
    if s == [] then 0 else Count(s[..|s| - 1], k) + (if s[|s| - 1] == k then 1 else 0)
  }

  /** The index of the first occurrence of `k` in `s`. */
  function FirstIndex(s: seq<int>, k: int): (i: nat)
    requires k in s
    ensures i < |s| && s[i] == k && forall j :: 0 <= j < i ==> s[j] != k
  {
    if s[0] == k then 0
    else
      1 + FirstIndex(s[1..], k)
  }

  /** `keys` lists elements of `s` in the order of their first occurrence in `s`. */
  ghost predicate FirstSeenOrder(s: seq<int>, keys: seq<int>)
    requires forall k :: k in keys ==> k in s
  {
    forall a, b :: 0 <= a < b < |keys| ==> FirstIndex(s, keys[a]) < FirstIndex(s, keys[b])
  }

  /** The first occurrence of `k` is the only index holding `k` with no `k` before it. */
  lemma FirstIndexIs(s: seq<int>, k: int, i: nat)
    requires i < |s| && s[i] == k && forall j :: 0 <= j < i ==> s[j] != k
    ensures FirstIndex(s, k) == i
  {
    var m := FirstIndex(s, k);
    if m < i {
      assert false;
    }
  }

  /** One more element leaves the first occurrences of the earlier elements where they were, and the first
      occurrence of a new element is the last index. */
  lemma FirstIndexExtend(s: seq<int>, i: nat, k: int)
    requires i < |s| && (k in s[..i] || k == s[i])
    ensures k in s[..i] ==> FirstIndex(s[..i + 1], k) == FirstIndex(s[..i], k)
    ensures k !in s[..i] ==> FirstIndex(s[..i + 1], k) == i
  {
    var t := s[..i + 1];
    if k in s[..i] {
      var m := FirstIndex(s[..i], k);
      assert t[m] == k;
      forall j | 0 <= j < m ensures t[j] != k {
        assert t[j] == s[..i][j];
      }
      FirstIndexIs(t, k, m);
    } else {
      forall j | 0 <= j < i ensures t[j] != k {
        assert t[j] == s[..i][j];
      }
      FirstIndexIs(t, k, i);
    }
  }

  /** The sum of the counts stored for `keys`. */
  function SumCounts(keys: seq<int>, m: map<int, nat>): nat
    requires forall i :: 0 <= i < |keys| ==> keys[i] in m
  {
    if keys == [] then 0 else SumCounts(keys[..|keys| - 1], m) + m[keys[|keys| - 1]]
  }

  /** The sum of the probabilities stored for `keys`. */
  function SumProbabilities(keys: seq<int>, m: map<int, real>): real
    requires forall i :: 0 <= i < |keys| ==> keys[i] in m
  {
    if keys == [] then 0.0 else SumProbabilities(keys[..|keys| - 1], m) + m[keys[|keys| - 1]]
  }

  /** Returns the two dictionaries of the source, plus `keys`: the order in which both iterate,
      which is the order of first occurrence in the input. */
  method CalculateStreakDistribution(streaks: seq<int>)
    returns (prob: map<int, real>, freq: map<int, nat>, keys: seq<int>)
    ensures Distinct(keys) && (forall k :: k in keys <==> k in streaks) && FirstSeenOrder(streaks, keys)
    ensures forall k :: k in freq <==> k in streaks
    ensures prob.Keys == freq.Keys
    ensures forall i :: 0 <= i < |keys| ==> keys[i] in freq
    ensures forall k :: k in freq ==> freq[k] == Count(streaks, k)
    ensures SumCounts(keys, freq) == |streaks|
    ensures forall k :: k in prob ==> prob[k] == freq[k] as real / |streaks| as real
    ensures |streaks| > 0 ==> SumProbabilities(keys, prob) == 1.0
    ensures streaks == [] ==> prob == map[] && freq == map[]
  {
    freq, keys := CountFrequencies(streaks);
    var total := SumCounts(keys, freq);
    assert forall k :: k in freq ==> k in streaks && |streaks| > 0;
    prob := map k | k in freq :: freq[k] as real / total as real;
    if |streaks| > 0 {
      SumOfShares(keys, freq, prob, total);
      DivideBySelf(total as real);
    }
  }

  /** The frequency of every streak length, with the lengths in the order of their first occurrence: the
      lengths listed are those of the input, each once, and their frequencies add up to the input's length. */
  method CountFrequencies(streaks: seq<int>) returns (freq: map<int, nat>, keys: seq<int>)
    ensures Distinct(keys) && (forall k :: k in keys <==> k in streaks) && FirstSeenOrder(streaks, keys)
    ensures forall k :: k in freq <==> k in streaks
    ensures forall i :: 0 <= i < |keys| ==> keys[i] in freq
    ensures forall k :: k in freq ==> freq[k] == Count(streaks, k)
    ensures SumCounts(keys, freq) == |streaks|
  {
    freq, keys := map[], [];
    for i := 0 to |streaks|
      invariant Tallies(streaks[..i], freq, keys)
      invariant FirstSeenOrder(streaks[..i], keys)
    {
      var length := streaks[i];
      TallyNext(streaks, i, freq, keys);
      OrderNext(streaks, i, keys);
      if length !in freq {
        keys, freq := keys + [length], freq[length := 1];
      } else {
        freq := freq[length := freq[length] + 1];
      }
    }
    assert streaks[..|streaks|] == streaks;
  }

  /** `freq` counts every element of `s`, and `keys` lists each of them once. */
  ghost predicate Tallies(s: seq<int>, freq: map<int, nat>, keys: seq<int>) {
    && Distinct(keys) && (forall k :: k in keys <==> k in s)
    && (forall k :: k in freq <==> k in s)
    && (forall j :: 0 <= j < |keys| ==> keys[j] in freq)
    && (forall k :: k in freq ==> freq[k] == Count(s, k))
    && SumCounts(keys, freq) == |s|
  }

  /** Counting one more element: a new one is listed with frequency 1, a known one counted once more. */
  lemma TallyNext(s: seq<int>, i: nat, freq: map<int, nat>, keys: seq<int>)
    requires i < |s| && Tallies(s[..i], freq, keys)
    ensures s[i] !in freq ==> Tallies(s[..i + 1], freq[s[i] := 1], keys + [s[i]])
    ensures s[i] in freq ==> Tallies(s[..i + 1], freq[s[i] := freq[s[i]] + 1], keys)
  {
    var length := s[i];
    CountExtend(s, i);
    if length !in freq {
      CountAbsent(s[..i], length);
      SumCountsUpdate(keys, freq, length, 1);
      SumCountsAppend(keys, freq[length := 1], length);
    } else {
      SumCountsUpdate(keys, freq, length, freq[length] + 1);
    }
  }

  /** Listing a new element at the back keeps the keys in the order of first occurrence. */
  lemma OrderNext(s: seq<int>, i: nat, keys: seq<int>)
    requires i < |s| && (forall k :: k in keys <==> k in s[..i]) && FirstSeenOrder(s[..i], keys)
    ensures forall k :: k in keys ==> k in s[..i + 1]
    ensures FirstSeenOrder(s[..i + 1], keys)
    ensures s[i] !in keys ==> FirstSeenOrder(s[..i + 1], keys + [s[i]])
  {
    assert s[..i + 1] == s[..i] + [s[i]];
    forall a | 0 <= a < |keys| ensures FirstIndex(s[..i + 1], keys[a]) == FirstIndex(s[..i], keys[a]) {
      FirstIndexExtend(s, i, keys[a]);
    }
    if s[i] !in keys {
      FirstIndexExtend(s, i, s[i]);
      var keys' := keys + [s[i]];
      forall a, b | 0 <= a < b < |keys'|
        ensures FirstIndex(s[..i + 1], keys'[a]) < FirstIndex(s[..i + 1], keys'[b])
      {
        assert keys'[a] == keys[a];
        if b < |keys| {
          assert keys'[b] == keys[b];
        }
      }
    }
  }

  /** Extending the counted prefix by one element adds one to that element's count only. */
  lemma CountExtend(s: seq<int>, i: nat)
    requires i < |s|
    ensures forall k :: k in s[..i + 1] <==> k in s[..i] || k == s[i]
    ensures forall k :: Count(s[..i + 1], k) == Count(s[..i], k) + (if s[i] == k then 1 else 0)
  {
    assert s[..i + 1] == s[..i] + [s[i]];
    assert s[..i + 1][..i] == s[..i];
  }

  lemma {:induction false} CountAbsent(s: seq<int>, k: int)
    requires k !in s
    ensures Count(s, k) == 0
  {
    if s != [] {
      assert forall x :: x in s[..|s| - 1] ==> x in s;
      CountAbsent(s[..|s| - 1], k);
    }
  }

  lemma DivideBySelf(x: real)
    requires x != 0.0
    ensures x / x == 1.0
  {
  }

  lemma {:induction false} SumCountsAppend(keys: seq<int>, m: map<int, nat>, x: int)
    requires forall i :: 0 <= i < |keys| ==> keys[i] in m
    requires x in m
    ensures SumCounts(keys + [x], m) == SumCounts(keys, m) + m[x]
  {
    assert (keys + [x])[..|keys|] == keys;
  }

  /** Changing the count of one key changes the sum by the difference, if the key is listed once. */
  lemma {:induction false} SumCountsUpdate(keys: seq<int>, m: map<int, nat>, x: int, v: nat)
    requires forall i :: 0 <= i < |keys| ==> keys[i] in m
    requires Distinct(keys)
    ensures x in keys ==> SumCounts(keys, m[x := v]) == SumCounts(keys, m) - m[x] + v
    ensures x !in keys ==> SumCounts(keys, m[x := v]) == SumCounts(keys, m)
  {
    if keys != [] {
      var init := keys[..|keys| - 1];
      SumCountsUpdate(init, m, x, v);
      if x == keys[|keys| - 1] {
        assert x !in init;
      }
    }
  }

  /** Shares of a total sum to the share of the sum. */
  lemma {:induction false} SumOfShares(keys: seq<int>, freq: map<int, nat>, prob: map<int, real>, total: nat)
    requires forall i :: 0 <= i < |keys| ==> keys[i] in freq && keys[i] in prob
    requires total > 0
    requires forall k :: k in prob && k in freq ==> prob[k] == freq[k] as real / total as real
    ensures SumProbabilities(keys, prob) == SumCounts(keys, freq) as real / total as real
  {
    if keys != [] {
      var init, last := keys[..|keys| - 1], keys[|keys| - 1];
      SumOfShares(init, freq, prob, total);
      AddShares(SumCounts(init, freq) as real, freq[last] as real, total as real);
    }
  }

  lemma AddShares(a: real, b: real, t: real)
    requires t != 0.0
    ensures a / t + b / t == (a + b) / t
  {
  }
}
