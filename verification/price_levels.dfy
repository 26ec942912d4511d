/** Percentile thresholds and the median of a price list (levels.go and NewPriceIndex). */
module PriceLevels {
  import opened Sums

  const CHEAP_PERCENTILE: real := 0.35
  const EXPENSIVE_PERCENTILE: real := 0.7

  datatype PriceLevel = Unknown | Cheap | Average | High

  function DeterminePriceLevel(price: real, cheap: real, expensive: real): PriceLevel {
    if cheap == 0.0 && expensive == 0.0 then Unknown
    else if price <= cheap then Cheap
    else if price >= expensive then High
    else Average
  }

  /** The index of a percentile: (n-1)*pct rounded half up and clamped into the list. */
  function PercentileIndex(n: nat, pct: real): (k: nat)
    requires n > 0
    ensures k < n
  {
    var rounded := ((n - 1) as real * pct + 0.5).Floor;
    if rounded < 0 then 0 else if rounded > n - 1 then n - 1 else rounded
  }

  /** A share of the list without its first, rounded half up. */
  function RoundedShare(n: nat, pct: real): (k: nat)
    requires n > 0 && 0.0 <= pct <= 1.0
    ensures k < n
  {
    ShareIsWithin((n - 1) as real, pct);
    ((n - 1) as real * pct + 0.5).Floor
  }

  lemma ShareIsWithin(x: real, pct: real)
    requires x >= 0.0 && 0.0 <= pct <= 1.0
    ensures 0.0 <= x * pct <= x
  {
  }

  lemma PercentileIsShare(n: nat, pct: real)
    requires n > 0 && 0.0 <= pct <= 1.0
    ensures PercentileIndex(n, pct) == RoundedShare(n, pct)
  {
    ShareIsWithin((n - 1) as real, pct);
  }

  ghost predicate IsSorting(sorted: seq<real>, prices: seq<real>) {
    SortedBy(sorted, Id) && multiset(sorted) == multiset(prices)
  }

  /** The price with exactly k others before it once the list is in order. */
  ghost predicate IsRanked(v: real, prices: seq<real>, k: nat) {
    exists sorted :: IsSorting(sorted, prices) && k < |sorted| && v == sorted[k]
  }

  ghost predicate IsMidway(m: real, prices: seq<real>, j: nat, k: nat) {
    exists lo, hi :: IsRanked(lo, prices, j) && IsRanked(hi, prices, k) && m == (lo + hi) / 2.0
  }

  /** Midway between the two middle ranks, which coincide for an odd number of prices. */
  ghost predicate IsMedian(m: real, prices: seq<real>)
    requires prices != []
  {
    IsMidway(m, prices, (|prices| - 1) / 2, |prices| / 2)
  }

  method ComputeThresholdsFromPrices(prices: seq<real>, cheapPct: real, expensivePct: real)
    returns (cheap: real, expensive: real)
    ensures prices == [] ==> cheap == 0.0 && expensive == 0.0
    ensures prices != [] ==> IsRanked(cheap, prices, PercentileIndex(|prices|, cheapPct))
    ensures prices != [] ==> IsRanked(expensive, prices, PercentileIndex(|prices|, expensivePct))
  {
    if |prices| == 0 {
      return 0.0, 0.0;
    }
    var sorted := Sort(prices, Id);
    SumPermutation(sorted, prices, Id);
    cheap := sorted[PercentileIndex(|sorted|, cheapPct)];
    expensive := sorted[PercentileIndex(|sorted|, expensivePct)];
    assert IsSorting(sorted, prices);
  }

  method ComputeMedian(prices: seq<real>) returns (median: real)
    requires prices != []
    ensures IsMedian(median, prices)
  {
    var sorted := Sort(prices, Id);
    SumPermutation(sorted, prices, Id);
    assert IsSorting(sorted, prices);
    var mid := |sorted| / 2;
    assert IsRanked(sorted[mid], prices, mid);
    assert IsRanked(sorted[(|sorted| - 1) / 2], prices, (|prices| - 1) / 2);
    if |sorted| % 2 == 0 {
      median := (sorted[mid - 1] + sorted[mid]) / 2.0;
    } else {
      median := sorted[mid];
    }
  }

  lemma LastIsGreatest(a: seq<real>, x: real)
    requires SortedBy(a, Id) && x in a
    ensures x <= a[|a| - 1]
  {
    var i :| 0 <= i < |a| && a[i] == x;
    assert Id(a[i]) <= Id(a[|a| - 1]);
  }

  lemma SameLast(a: seq<real>, b: seq<real>)
    requires SortedBy(a, Id) && SortedBy(b, Id) && multiset(a) == multiset(b) && a != [] && b != []
    ensures a[|a| - 1] == b[|b| - 1]
  {
    assert a[|a| - 1] in multiset(b) && b[|b| - 1] in multiset(a);
    LastIsGreatest(a, b[|b| - 1]);
    LastIsGreatest(b, a[|a| - 1]);
  }

  lemma DropSameLast(a: seq<real>, b: seq<real>)
    requires multiset(a) == multiset(b) && a != [] && b != [] && a[|a| - 1] == b[|b| - 1]
    ensures multiset(a[..|a| - 1]) == multiset(b[..|b| - 1])
  {
    var x := a[|a| - 1];
    assert a == a[..|a| - 1] + [x] && b == b[..|b| - 1] + [x];
    CancelOne(multiset(a[..|a| - 1]), multiset(b[..|b| - 1]), x);
    CancelOne(multiset(b[..|b| - 1]), multiset(a[..|a| - 1]), x);
  }

  lemma {:induction false} SortingIsUnique(a: seq<real>, b: seq<real>)
    requires SortedBy(a, Id) && SortedBy(b, Id) && multiset(a) == multiset(b)
    ensures a == b
  {
    WholeOrLess(a, b, Id);
    WholeOrLess(b, a, Id);
    if a != [] {
      SameLast(a, b);
      DropSameLast(a, b);
      SortingIsUnique(a[..|a| - 1], b[..|b| - 1]);
    }
  }

  /** Ranks are ordered: whatever order the sort gives ties, a lower rank is no higher a price. */
  lemma RankIsMonotone(v: real, j: nat, w: real, k: nat, prices: seq<real>)
    requires IsRanked(v, prices, j) && IsRanked(w, prices, k) && j <= k
    ensures v <= w
  {
    var a :| IsSorting(a, prices) && j < |a| && v == a[j];
    var b :| IsSorting(b, prices) && k < |b| && w == b[k];
    SortingIsUnique(a, b);
    assert Id(a[j]) <= Id(a[k]);
  }

  /** The cheap threshold never exceeds the median, nor the median the expensive threshold. */
  lemma ThresholdsBracketMedian(prices: seq<real>, cheap: real, median: real, expensive: real)
    requires prices != []
    requires IsRanked(cheap, prices, PercentileIndex(|prices|, CHEAP_PERCENTILE))
    requires IsRanked(expensive, prices, PercentileIndex(|prices|, EXPENSIVE_PERCENTILE))
    requires IsMedian(median, prices)
    ensures cheap <= median <= expensive
  {
    var n := |prices|;
    var j: nat, k: nat := (n - 1) / 2, n / 2;
    var lo, hi :| IsRanked(lo, prices, j) && IsRanked(hi, prices, k) && median == (lo + hi) / 2.0;
    RankIsMonotone(cheap, PercentileIndex(n, CHEAP_PERCENTILE), lo, j, prices);
    RankIsMonotone(lo, j, hi, k, prices);
    RankIsMonotone(hi, k, expensive, PercentileIndex(n, EXPENSIVE_PERCENTILE), prices);
  }

  lemma Pieces(a: seq<real>, k: nat)
    requires k < |a|
    ensures multiset(a[..k + 1]) <= multiset(a) && multiset(a[k..]) <= multiset(a)
  {
    assert a == a[..k + 1] + a[k + 1..] && a == a[..k] + a[k..];
  }

  /** At least k+1 of the prices are at or below the price of rank k, and at least n-k at or above it. */
  lemma RankCounts(v: real, k: nat, prices: seq<real>) returns (below: seq<real>, above: seq<real>)
    requires IsRanked(v, prices, k)
    ensures multiset(below) <= multiset(prices) && |below| == k + 1 && forall x :: x in below ==> x <= v
    ensures multiset(above) <= multiset(prices) && |above| == |prices| - k && forall x :: x in above ==> x >= v
  {
    var a :| IsSorting(a, prices) && k < |a| && v == a[k];
    SumPermutation(a, prices, Id);
    below, above := a[..k + 1], a[k..];
    Pieces(a, k);
    forall i | 0 <= i <= k ensures a[i] <= v {
      assert Id(a[i]) <= Id(a[k]);
    }
    forall i | k <= i < |a| ensures a[i] >= v {
      assert Id(a[k]) <= Id(a[i]);
    }
  }

  /** At least round(0.35 (n-1)) + 1 prices are at or below the cheap threshold. */
  lemma CheapShare(prices: seq<real>, cheap: real) returns (below: seq<real>)
    requires prices != []
    requires IsRanked(cheap, prices, PercentileIndex(|prices|, CHEAP_PERCENTILE))
    ensures multiset(below) <= multiset(prices) && forall x :: x in below ==> x <= cheap
    ensures |below| == ((|prices| - 1) as real * 0.35 + 0.5).Floor + 1
  {
    var above;
    below, above := RankCounts(cheap, PercentileIndex(|prices|, CHEAP_PERCENTILE), prices);
  }

  /** At least n - round(0.7 (n-1)) prices are at or above the expensive threshold. */
  lemma ExpensiveShare(prices: seq<real>, expensive: real) returns (above: seq<real>)
    requires prices != []
    requires IsRanked(expensive, prices, PercentileIndex(|prices|, EXPENSIVE_PERCENTILE))
    ensures multiset(above) <= multiset(prices) && forall x :: x in above ==> x >= expensive
    ensures |above| == |prices| - ((|prices| - 1) as real * 0.7 + 0.5).Floor
  {
    var below;
    below, above := RankCounts(expensive, PercentileIndex(|prices|, EXPENSIVE_PERCENTILE), prices);
  }
}
