/** The rank rule shared by stats and coops: a value's rank is the largest
    threshold index the value reaches, and progress towards the next rank is a
    percentage clamped to [0, 100]. */
module Ranks {

  /** The index the downward scan of `calculateRankLevel`/`getCoopRank` returns:
      the largest `i` with `t[i] <= v`, or 0 when the value reaches no threshold. */
  function RankLevel(t: seq<int>, v: int): (r: nat)
    ensures |t| == 0 ==> r == 0
    ensures |t| > 0 ==> r < |t|
    ensures r > 0 ==> t[r] <= v
    ensures (exists i :: 0 <= i < |t| && t[i] <= v) ==> t[r] <= v
    ensures forall j :: r < j < |t| ==> v < t[j]
    ensures (forall i :: 0 <= i < |t| ==> v < t[i]) ==> r == 0
    decreases |t|
  {
    if |t| == 0 then 0
    else if t[|t| - 1] <= v then |t| - 1
    else
      var prefix := t[..|t| - 1];
      assert forall i :: 0 <= i < |prefix| ==> prefix[i] == t[i];
      RankLevel(prefix, v)
  }

  /** The rank is a function of which thresholds the value reaches: any index that
      is reached while no later one is, is the rank. */
  lemma RankLevelUnique(t: seq<int>, v: int, i: nat)
    requires i < |t| && t[i] <= v
    requires forall j :: i < j < |t| ==> v < t[j]
    ensures RankLevel(t, v) == i
  {
  }

  /** More points never lower the rank (whatever the order of the thresholds). */
  lemma RankLevelMonotone(t: seq<int>, v1: int, v2: int)
    requires v1 <= v2
    ensures RankLevel(t, v1) <= RankLevel(t, v2)
  {
  }

  /** Below the top rank the value is strictly under the next threshold, so the
      distance to it is at least 1. */
  lemma RankLevelBelowNext(t: seq<int>, v: int)
    requires RankLevel(t, v) + 1 < |t|
    ensures v < t[RankLevel(t, v) + 1]
  {
  }

  predicate StrictlyIncreasing(t: seq<int>) {
    forall i, j :: 0 <= i < j < |t| ==> t[i] < t[j]
  }

  function Min(a: real, b: real): real { if a <= b then a else b }
  function Max(a: real, b: real): real { if a >= b then a else b }

  /** `Math.min(100, Math.max(0, num / den * 100))` on exact reals. A zero
      denominator gives JavaScript's +/-Infinity, which the clamp turns into 100 or 0;
      0/0 (NaN) is excluded by the precondition. */
  function ClampedPercent(num: int, den: int): (r: real)
    requires den != 0 || num != 0
    ensures 0.0 <= r <= 100.0
    ensures den != 0 && 0.0 <= (num as real) / (den as real) <= 1.0 ==> r == (num as real) / (den as real) * 100.0
    ensures den != 0 && (num as real) / (den as real) < 0.0 ==> r == 0.0
    ensures den != 0 && (num as real) / (den as real) > 1.0 ==> r == 100.0
    ensures den > 0 && 0 <= num <= den ==> r == (num as real) / (den as real) * 100.0
    ensures den > 0 && num < 0 ==> r == 0.0
    ensures den > 0 && num > den ==> r == 100.0
    ensures den == 0 ==> r == (if num > 0 then 100.0 else 0.0)
  {
    if den == 0 then (if num > 0 then 100.0 else 0.0)
    else
      var quotient := (num as real) / (den as real);
      assert den > 0 && num > den ==> quotient > 1.0 by {
        if den > 0 { QuotientRange(num, den); }
      }
      Min(100.0, Max(0.0, quotient * 100.0))
  }

  /** Where `num / den` falls for a positive denominator. */
  lemma QuotientRange(num: int, den: int)
    requires den > 0
    ensures num < 0 ==> (num as real) / (den as real) < 0.0
    ensures 0 <= num <= den ==> 0.0 <= (num as real) / (den as real) <= 1.0
    ensures num > den ==> (num as real) / (den as real) > 1.0
  {
    var quotient := (num as real) / (den as real);
    assert quotient * (den as real) == num as real;
  }
}
