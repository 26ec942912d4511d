/** When the chosen window can cost more than starting at once (optimizer.go, calculateSavings). */
module Savings {
  import opened Sums
  import opened PriceSlots
  import opened StageCosts
  import opened WindowSearch

  /** What starting in slot i costs. */
  function StartCost(s: Search, profile: Profile, slotDuration: Duration, i: nat): real
    requires i + s.k <= |s.slots|
  {
    EstimatedCost(profile, s.slots[i..i + s.k], slotDuration)
  }

  /** Every slot has the same weight, and it is not negative. */
  predicate OneWeight(weights: seq<real>, k: nat) {
    weights == []
    || forall j :: 0 <= j < k ==> EffectiveWeights(weights, k)[j] == EffectiveWeights(weights, k)[0] >= 0.0
  }

  /** The best window does not cost more than the immediate start: savings are not negative. */
  ghost predicate SavesMoney(s: Search, profile: Profile, slotDuration: Duration)
    requires s.k <= |s.slots|
  {
    forall i: nat :: EarliestBest(s, WindowCosts(s, profile, slotDuration), i) ==>
                       && FirstValid(s.slots, s.now) + s.k <= |s.slots|
                       && StartCost(s, profile, slotDuration, i)
                          <= StartCost(s, profile, slotDuration, FirstValid(s.slots, s.now))
  }

  function AtPrices(s: Search, prices: seq<real>): (r: Search)
    requires |prices| == |s.slots|
    ensures |r.slots| == |s.slots| && r.k == s.k
  {
    s.(slots := Repriced(s.slots, prices))
  }

  ghost predicate SavesMoneyAtAnyPrices(s: Search, profile: Profile, slotDuration: Duration)
    requires s.k <= |s.slots|
  {
    forall prices: seq<real> | |prices| == |s.slots| :: SavesMoney(AtPrices(s, prices), profile, slotDuration)
  }

  // ---- One weight is enough ----

  lemma CostIsWeighted(slots: seq<PriceSlot>, profile: Profile, slotDuration: Duration)
    requires slots != [] && OneWeight(profile.weights, |slots|) && profile.weights != []
    ensures WeightedCost(profile, slots, slotDuration)
            == EstimatedCost(profile, slots, slotDuration) * EffectiveWeights(profile.weights, |slots|)[0]
  {
    hide WeightedAt, EstimatedAt;
    EqualWeights(slots, profile.weights, Rate(profile, slotDuration), EffectiveWeights(profile.weights, |slots|)[0]);
  }

  /** With one weight for all slots that is not negative, savings are not negative. */
  lemma OneWeightSavesMoney(s: Search, profile: Profile, slotDuration: Duration)
    requires SortedByFrom(s.slots) && 0 < s.k <= |s.slots| && OneWeight(profile.weights, s.k)
    ensures SavesMoney(s, profile, slotDuration)
  {
    var f := FirstValid(s.slots, s.now);
    forall i: nat | EarliestBest(s, WindowCosts(s, profile, slotDuration), i)
      ensures f + s.k <= |s.slots| && StartCost(s, profile, slotDuration, i) <= StartCost(s, profile, slotDuration, f)
    {
      hide WeightedAt, EstimatedAt;
      ImmediateIsCandidate(s, i);
      if profile.weights == [] {
        FreeOfCharge(s, profile, slotDuration, i);
        FreeOfCharge(s, profile, slotDuration, f);
      } else {
        BestIsNoDearer(s, profile, slotDuration, i, f);
      }
    }
  }

  lemma FreeOfCharge(s: Search, profile: Profile, slotDuration: Duration, i: nat)
    requires i + s.k <= |s.slots| && profile.weights == []
    ensures StartCost(s, profile, slotDuration, i) == 0.0
  {
  }

  lemma BestIsNoDearer(s: Search, profile: Profile, slotDuration: Duration, i: nat, f: nat)
    requires 0 < s.k <= |s.slots| && OneWeight(profile.weights, s.k) && profile.weights != []
    requires EarliestBest(s, WindowCosts(s, profile, slotDuration), i) && s.Candidate(f) && f <= i
    ensures StartCost(s, profile, slotDuration, i) <= StartCost(s, profile, slotDuration, f)
  {
    hide WeightedCost, EstimatedCost, EffectiveWeights, StartCost, WindowCost, OneWeight;
    if i != f {
      CostAt(s, profile, slotDuration, i);
      CostAt(s, profile, slotDuration, f);
      var costs := WindowCosts(s, profile, slotDuration);
      Cancel(StartCost(s, profile, slotDuration, i), StartCost(s, profile, slotDuration, f), costs[i], costs[f],
             EffectiveWeights(profile.weights, s.k)[0]);
    }
  }

  lemma CostAt(s: Search, profile: Profile, slotDuration: Duration, i: nat)
    requires 0 < s.k && OneWeight(profile.weights, s.k) && profile.weights != [] && i + s.k <= |s.slots|
    ensures EffectiveWeights(profile.weights, s.k)[0] >= 0.0
    ensures WindowCost(s, profile, slotDuration, i)
            == StartCost(s, profile, slotDuration, i) * EffectiveWeights(profile.weights, s.k)[0]
  {
    hide WeightedCost, EstimatedCost, EffectiveWeights;
    CostIsWeighted(s.slots[i..i + s.k], profile, slotDuration);
  }

  lemma Cancel(x: real, y: real, c: real, d: real, w: real)
    requires c == x * w && d == y * w && c < d && w >= 0.0
    ensures x <= y
  {
    assert w != 0.0;
    CancelFactor(x, y, w);
  }

  lemma CancelFactor(x: real, y: real, w: real)
    requires w > 0.0 && x * w <= y * w
    ensures x <= y
  {
    assert (y - x) * w >= 0.0;
  }

  // ---- Other weights are not ----

  /**
   * Prices over one window and, repeated, over all later slots: nothing but b at m, if m is not the first slot; the
   * first slot costs 1 from the second time on.
   */
  function Wave(k: nat, m: nat, b: real, q: nat): real
    requires k > 0
  {
    if q > k then Wave(k, m, b, q - k) else if q == k then 1.0 else if q == m > 0 then b else 0.0
  }

  function WavePrices(n: nat, f: nat, k: nat, m: nat, b: real): (prices: seq<real>)
    requires k > 0
    ensures |prices| == n
    ensures forall i: nat :: f <= i < n ==> prices[i] == Wave(k, m, b, i - f)
  {
    seq(n, i requires 0 <= i < n => if i < f then 0.0 else Wave(k, m, b, i - f))
  }

  lemma {:induction false} SumZeros<T>(s: seq<T>, f: T -> real)
    requires forall x :: x in s ==> f(x) == 0.0
    ensures Sum(s, f) == 0.0
  {
    if s != [] {
      SumZeros(s[..|s| - 1], f);
    }
  }

  /** Everything but the elements i and j, which may be the same, is 0. */
  lemma {:induction false} SumOfSpikes<T>(s: seq<T>, f: T -> real, i: nat, j: nat)
    requires i <= j < |s| && forall h :: 0 <= h < |s| && h != i && h != j ==> f(s[h]) == 0.0
    ensures Sum(s, f) == if i == j then f(s[j]) else f(s[i]) + f(s[j])
  {
    var s' := s[..|s| - 1];
    if j < |s| - 1 {
      SumOfSpikes(s', f, i, j);
    } else if i < j {
      SumOfSpikes(s', f, i, i);
    } else {
      SumZeros(s', f);
    }
  }

  lemma SumSlide<T>(s: seq<T>, a: nat, k: nat, f: T -> real)
    requires a + k < |s| && k > 0
    ensures Sum(s[a + 1..a + 1 + k], f) == Sum(s[a..a + k], f) - f(s[a]) + f(s[a + k])
  {
    SumSlice(s, a, a + k + 1, f);
    assert s[a..a + k + 1] == [s[a]] + s[a + 1..a + 1 + k];
    SumAppend([s[a]], s[a + 1..a + 1 + k], f);
    SumOne(s[a], f);
  }

  /** Slots from f on with wave prices. */
  ghost predicate HasWave(slots: seq<PriceSlot>, f: nat, k: nat, m: nat, b: real)
    requires k > 0
  {
    m < k && f + k < |slots| && forall i: nat :: f <= i < |slots| ==> slots[i].price == Wave(k, m, b, i - f)
  }

  /** Every window after the first costs 1 more than it. */
  lemma {:induction false} WaveTotals(slots: seq<PriceSlot>, f: nat, k: nat, m: nat, b: real, t: nat)
    requires k > 0 && HasWave(slots, f, k, m, b) && f + t + k <= |slots| && t > 0
    ensures Sum(slots[f + t..f + t + k], Price) == Sum(slots[f..f + k], Price) + 1.0
    decreases t
  {
    if t > 1 {
      WaveTotals(slots, f, k, m, b, t - 1);
    }
    SumSlide(slots, f + t - 1, k, Price);
    assert Price(slots[f + t - 1]) == Wave(k, m, b, t - 1) && Price(slots[f + t - 1 + k]) == Wave(k, m, b, t - 1 + k);
  }

  lemma WeightedAsList(slots: seq<PriceSlot>, weights: seq<real>, rate: real) returns (xs: seq<real>)
    requires weights != []
    ensures |xs| == |slots| && WeightedAt(slots, weights, rate) == Sum(xs, Id)
    ensures forall j :: 0 <= j < |slots| ==> xs[j] == Charge(slots[j].price, rate, EffectiveWeights(weights, |slots|)[j])
  {
    xs := Weighted(Charges(slots, rate), weights, StageList(|slots|, |weights|));
    forall j | 0 <= j < |slots| ensures xs[j] == Charge(slots[j].price, rate, EffectiveWeights(weights, |slots|)[j]) {
      SameProduct(Charges(slots, rate)[j], slots[j].price * rate, weights[StageList(|slots|, |weights|)[j]],
                  EffectiveWeights(weights, |slots|)[j]);
    }
  }

  /** What a slot of this price adds to the weighted cost. */
  function Charge(price: real, rate: real, w: real): real {
    price * rate * w
  }

  lemma ZeroPrice(rate: real, w: real)
    ensures Charge(0.0, rate, w) == 0.0
  {
  }

  lemma WaveStart(k: nat, m: nat, b: real, q: nat)
    requires k > 0 && q <= k
    ensures Wave(k, m, b, q) == if q == k then 1.0 else if q == m > 0 then b else 0.0
  {
  }

  /** The weighted costs of the first two windows under wave prices. */
  lemma WaveCosts(slots: seq<PriceSlot>, weights: seq<real>, rate: real, f: nat, k: nat, m: nat, b: real)
    requires weights != [] && k > 0 && HasWave(slots, f, k, m, b)
    ensures var e := EffectiveWeights(weights, k);
            && WeightedAt(slots[f..f + k], weights, rate) == (if m > 0 then Charge(b, rate, e[m]) else 0.0)
            && WeightedAt(slots[f + 1..f + 1 + k], weights, rate) ==
               (if m > 0 then Charge(b, rate, e[m - 1]) + Charge(1.0, rate, e[k - 1]) else Charge(1.0, rate, e[k - 1]))
  {
    hide Charge, WeightedAt, EffectiveWeights, Wave;
    var e := EffectiveWeights(weights, k);
    var first, second := slots[f..f + k], slots[f + 1..f + 1 + k];
    var xs := WeightedAsList(first, weights, rate);
    var ys := WeightedAsList(second, weights, rate);
    forall j | 0 <= j < k ensures xs[j] == if j == m > 0 then Charge(b, rate, e[m]) else 0.0 {
      assert first[j] == slots[f + j];
      WaveStart(k, m, b, j);
      ZeroPrice(rate, e[j]);
    }
    forall j | 0 <= j < k
      ensures ys[j] == if j == k - 1 then Charge(1.0, rate, e[k - 1])
                       else if j + 1 == m then Charge(b, rate, e[m - 1]) else 0.0
    {
      assert second[j] == slots[f + 1 + j];
      WaveStart(k, m, b, j + 1);
      ZeroPrice(rate, e[j]);
    }
    if m > 0 {
      SumOfSpikes(xs, Id, m, m);
      SumOfSpikes(ys, Id, m - 1, k - 1);
    } else {
      SumZeros(xs, Id);
      SumOfSpikes(ys, Id, k - 1, k - 1);
    }
  }

  /** A charge c that makes c * x + y fall short of c * z. */
  lemma FallShort(x: real, y: real, z: real, rate: real) returns (b: real)
    requires x != z && rate > 0.0
    ensures Charge(b, rate, x) + y < Charge(b, rate, z)
  {
    var d := x - z;
    var c := -(y + 1.0) / d;
    assert c * d == -(y + 1.0);
    b := c / rate;
    assert b * rate == c;
    assert c * x - c * z == c * d;
  }

  lemma NegativeProduct(rate: real, w: real)
    requires rate > 0.0 && w < 0.0
    ensures Charge(1.0, rate, w) < 0.0
  {
  }

  lemma {:induction false} AllLikeFirst(e: seq<real>, j: nat)
    requires j < |e| && forall m :: 0 < m < |e| ==> e[m - 1] == e[m]
    ensures e[j] == e[0]
  {
    if j > 0 {
      AllLikeFirst(e, j - 1);
    }
  }

  /** Other weights: there are prices at which the second window has the lower weighted cost. */
  lemma WaveExists(weights: seq<real>, k: nat, rate: real) returns (m: nat, b: real)
    requires weights != [] && k > 0 && rate > 0.0 && !OneWeight(weights, k)
    ensures m < k
    ensures var e := EffectiveWeights(weights, k);
            if m > 0 then Charge(b, rate, e[m - 1]) + Charge(1.0, rate, e[k - 1]) < Charge(b, rate, e[m])
            else Charge(1.0, rate, e[k - 1]) < 0.0
  {
    var e := EffectiveWeights(weights, k);
    if i: nat :| 0 < i < k && e[i - 1] != e[i] {
      m := i;
      b := FallShort(e[m - 1], Charge(1.0, rate, e[k - 1]), e[m], rate);
    } else {
      m, b := 0, 0.0;
      forall j: nat | j < k ensures e[j] == e[0] {
        AllLikeFirst(e, j);
      }
      NegativeProduct(rate, e[k - 1]);
    }
  }

  // ---- The condition ----

  lemma {:induction false} BestBelow(s: Search, costs: seq<real>, n: nat, i: nat) returns (best: nat)
    requires |costs| + s.k == |s.slots| + 1 && i < n <= |costs| && s.Candidate(i)
    ensures best < n && s.Candidate(best)
    ensures forall j: nat :: j < n && s.Candidate(j) ==> costs[best] <= costs[j]
    ensures forall j: nat :: j < best && s.Candidate(j) ==> costs[best] < costs[j]
    decreases n
  {
    if !s.Candidate(n - 1) {
      best := BestBelow(s, costs, n - 1, i);
    } else if j: nat :| j < n - 1 && s.Candidate(j) {
      best := BestBelow(s, costs, n - 1, j);
      if costs[n - 1] < costs[best] {
        best := n - 1;
      }
    } else {
      best := n - 1;
    }
  }

  lemma CountEndedIgnoresPrices(slots: seq<PriceSlot>, prices: seq<real>, now: Time)
    requires |prices| == |slots|
    ensures FirstValid(Repriced(slots, prices), now) == FirstValid(slots, now)
  {
    var f := CountEnded(slots, now);
    var r := Repriced(slots, prices);
    if f < |slots| {
      FirstValidIs(r, now, f);
    } else {
      NoneValid(r, now);
    }
  }

  lemma SameTimes(s: Search, prices: seq<real>)
    requires |prices| == |s.slots|
    ensures var r := AtPrices(s, prices);
            && (Timeline(s.slots) ==> Timeline(r.slots)) && (SortedByFrom(s.slots) ==> SortedByFrom(r.slots))
            && FirstValid(r.slots, r.now) == FirstValid(s.slots, s.now)
            && (forall i: nat :: r.Candidate(i) <==> s.Candidate(i))
  {
    CountEndedIgnoresPrices(s.slots, prices, s.now);
  }

  lemma TimelineIsSorted(slots: seq<PriceSlot>)
    requires Timeline(slots)
    ensures SortedByFrom(slots)
  {
    forall i, j | 0 <= i < j < |slots| ensures slots[i].from <= slots[j].from {
      assert slots[i].till <= slots[j].from;
    }
  }

  /** On a timeline any candidate after the first valid slot makes the next slot one. */
  lemma NextIsCandidate(s: Search, i: nat)
    requires Timeline(s.slots) && s.k > 0 && s.Candidate(i) && i > FirstValid(s.slots, s.now)
    ensures s.Candidate(FirstValid(s.slots, s.now) + 1)
  {
    var f := FirstValid(s.slots, s.now);
    TimelineIsSorted(s.slots);
    ImmediateIsCandidate(s, i);
    assert s.slots[f].till <= s.slots[f + 1].from;
    StartsAscend(s.slots, f + 1, i);
  }

  lemma OneCandidateSavesMoney(s: Search, profile: Profile, slotDuration: Duration)
    requires Timeline(s.slots) && 0 < s.k <= |s.slots| && !s.Candidate(FirstValid(s.slots, s.now) + 1)
    ensures SavesMoney(s, profile, slotDuration)
  {
    TimelineIsSorted(s.slots);
    forall i: nat | EarliestBest(s, WindowCosts(s, profile, slotDuration), i)
      ensures i == FirstValid(s.slots, s.now)
    {
      ImmediateIsCandidate(s, i);
      if i > FirstValid(s.slots, s.now) {
        NextIsCandidate(s, i);
      }
    }
  }

  /** Under a wave that makes the second window the better one, the best window costs more than the first. */
  lemma WaveLosesMoney(s: Search, profile: Profile, slotDuration: Duration, m: nat, b: real)
    requires Timeline(s.slots) && 0 < s.k <= |s.slots| && profile.weights != [] && Rate(profile, slotDuration) > 0.0
    requires var f := FirstValid(s.slots, s.now);
             && s.Candidate(f) && s.Candidate(f + 1) && HasWave(s.slots, f, s.k, m, b)
             && WindowCost(s, profile, slotDuration, f + 1) < WindowCost(s, profile, slotDuration, f)
    ensures !SavesMoney(s, profile, slotDuration)
  {
    var f, costs := FirstValid(s.slots, s.now), WindowCosts(s, profile, slotDuration);
    TimelineIsSorted(s.slots);
    hide WeightedCost, EstimatedCost, HasWave, Timeline, Rate, FirstValid;
    var i := BestBelow(s, costs, |costs|, f);
    assert EarliestBest(s, costs, i);
    ImmediateIsCandidate(s, i);
    assert costs[i] <= costs[f + 1] < costs[f];
    LaterCostsMore(s, profile, slotDuration, f, i, m, b);
  }

  lemma LaterCostsMore(s: Search, profile: Profile, slotDuration: Duration, f: nat, i: nat, m: nat, b: real)
    requires profile.weights != [] && Rate(profile, slotDuration) > 0.0 && s.k > 0
    requires HasWave(s.slots, f, s.k, m, b) && f < i && i + s.k <= |s.slots|
    ensures StartCost(s, profile, slotDuration, f) < StartCost(s, profile, slotDuration, i)
  {
    hide EstimatedCost, HasWave;
    WaveTotals(s.slots, f, s.k, m, b, i - f);
    assert f + (i - f) == i;
    EstimatedCostClosedForm(profile, s.slots[i..i + s.k], slotDuration);
    EstimatedCostClosedForm(profile, s.slots[f..f + s.k], slotDuration);
    OneMore(Sum(s.slots[f..f + s.k], Price), Sum(s.slots[i..i + s.k], Price), Rate(profile, slotDuration));
  }

  lemma OneMore(x: real, y: real, rate: real)
    requires y == x + 1.0 && rate > 0.0
    ensures x * rate < y * rate
  {
  }

  /**
   * Exactly when savings are never negative, over all prices of a given day and for a device that uses power: if there
   * is only one slot the cycle can start in, or if all slots of a window have the same weight and it is not negative.
   */
  lemma SavesMoneyIff(s: Search, profile: Profile, slotDuration: Duration)
    requires Timeline(s.slots) && 0 < s.k <= |s.slots| && Rate(profile, slotDuration) > 0.0
    ensures SavesMoneyAtAnyPrices(s, profile, slotDuration) <==>
            !s.Candidate(FirstValid(s.slots, s.now) + 1) || OneWeight(profile.weights, s.k)
  {
    var f := FirstValid(s.slots, s.now);
    TimelineIsSorted(s.slots);
    hide SavesMoney, Timeline, OneWeight, FirstValid;
    if !s.Candidate(f + 1) || OneWeight(profile.weights, s.k) {
      forall prices: seq<real> | |prices| == |s.slots| ensures SavesMoney(AtPrices(s, prices), profile, slotDuration) {
        SameTimes(s, prices);
        if s.Candidate(f + 1) {
          OneWeightSavesMoney(AtPrices(s, prices), profile, slotDuration);
        } else {
          OneCandidateSavesMoney(AtPrices(s, prices), profile, slotDuration);
        }
      }
    } else {
      var prices := CostlyPrices(s, profile, slotDuration);
      assert !SavesMoney(AtPrices(s, prices), profile, slotDuration);
    }
  }

  /** Prices at which the best window costs more than starting at once. */
  lemma CostlyPrices(s: Search, profile: Profile, slotDuration: Duration) returns (prices: seq<real>)
    requires Timeline(s.slots) && 0 < s.k <= |s.slots| && Rate(profile, slotDuration) > 0.0
    requires s.Candidate(FirstValid(s.slots, s.now) + 1) && !OneWeight(profile.weights, s.k)
    ensures |prices| == |s.slots| && !SavesMoney(AtPrices(s, prices), profile, slotDuration)
  {
    hide Timeline, FirstValid, WavePrices, Charge, EffectiveWeights, Rate, SavesMoney, HasWave, OneWeight, WindowCost;
    var f, rate := FirstValid(s.slots, s.now), Rate(profile, slotDuration);
    TimelineIsSorted(s.slots);
    ImmediateIsCandidate(s, f + 1);
    WeightsExist(profile.weights, s.k);
    var m, b := WaveExists(profile.weights, s.k, rate);
    prices := WavePrices(|s.slots|, f, s.k, m, b);
    SameTimes(s, prices);
    var r := AtPrices(s, prices);
    RepricedHasWave(s, f, m, b);
    WaveIsCheaper(r, profile, slotDuration, f, m, b);
    WaveLosesMoney(r, profile, slotDuration, m, b);
  }

  lemma RepricedHasWave(s: Search, f: nat, m: nat, b: real)
    requires m < s.k && f + s.k < |s.slots|
    ensures HasWave(AtPrices(s, WavePrices(|s.slots|, f, s.k, m, b)).slots, f, s.k, m, b)
  {
    hide Wave;
  }

  lemma WaveIsCheaper(s: Search, profile: Profile, slotDuration: Duration, f: nat, m: nat, b: real)
    requires profile.weights != [] && s.k > 0 && HasWave(s.slots, f, s.k, m, b)
    requires var e, rate := EffectiveWeights(profile.weights, s.k), Rate(profile, slotDuration);
             if m > 0 then Charge(b, rate, e[m - 1]) + Charge(1.0, rate, e[s.k - 1]) < Charge(b, rate, e[m])
             else Charge(1.0, rate, e[s.k - 1]) < 0.0
    ensures WindowCost(s, profile, slotDuration, f + 1) < WindowCost(s, profile, slotDuration, f)
  {
    hide Wave, Charge, EffectiveWeights, WeightedAt, Rate;
    WaveCosts(s.slots, profile.weights, Rate(profile, slotDuration), f, s.k, m, b);
  }

  lemma WeightsExist(weights: seq<real>, k: nat)
    requires !OneWeight(weights, k)
    ensures weights != []
  {
  }

  /** Then the reported savings are not negative. */
  lemma ReportedSavings(r: OptimizationResult, s: Search, profile: Profile, slotDuration: Duration, at: nat)
    requires s.k <= |s.slots| && s.slots != [] && SortedByFrom(s.slots) && SavesMoney(s, profile, slotDuration)
    requires IsAnswer(r, s, profile, slotDuration, at)
    ensures r.savings >= 0.0
  {
    hide EstimatedCost, WeightedCost, StagePlan;
  }

  // ---- An example ----

  lemma TwoStageCosts(x: PriceSlot, y: PriceSlot, v: real, w: real)
    ensures WeightedAt([x, y], [v, w], 1.0) == x.price * v + y.price * w
    ensures EstimatedAt([x, y], [v, w], 1.0) == x.price + y.price
  {
    var charges := Charges([x, y], 1.0);
    assert charges == [x.price, y.price];
    var stage := StageList(2, 2);
    assert stage[0] == StageOf(0, 2, 2) == 0 && stage[1] == StageOf(1, 2, 2) == 1;
    var weights := [v, w];
    assert weights[stage[0]] == v && weights[stage[1]] == w;
    SameProduct(charges[0], x.price, weights[stage[0]], v);
    SameProduct(charges[1], y.price, weights[stage[1]], w);
    var weighted := Weighted(charges, weights, stage);
    assert |weighted| == 2;
    assert weighted[0] == charges[0] * weights[stage[0]];
    assert weighted[1] == charges[1] * weights[stage[1]];
    SumOfTwo(charges, x.price, y.price);
    SumOfTwo(weighted, x.price * v, y.price * w);
  }

  lemma SumOfTwo(two: seq<real>, a: real, b: real)
    requires |two| == 2 && two[0] == a && two[1] == b
    ensures Sum(two, Id) == a + b
  {
    var one := two[..1];
    assert one[..0] == [];
    assert Sum(one, Id) == Sum(one[..0], Id) + Id(a);
    assert Sum(two, Id) == Sum(two[..1], Id) + Id(b);
  }

  /**
   * With unequal weights the least weighted cost can be the dearer window: one cheap hour for the heavy stage and
   * then a dear one, where starting at once would cost 3 and the chosen start costs 10.
   */
  lemma UnequalWeightsCanCostMore() returns (s: Search, profile: Profile)
    ensures SortedByFrom(s.slots) && s.k == 2 && |s.slots| == 3 && profile.weights == [1.0, 0.1]
    ensures EarliestBest(s, WindowCosts(s, profile, HOUR), 1)
    ensures EstimatedCost(profile, s.slots[1..3], HOUR) == 10.0 && ImmediateCost(s, profile, HOUR) == 3.0
  {
    profile := Profile(2 * HOUR, [1.0, 0.1], 1.0);
    var x, y, z := PriceSlot(0, HOUR, 2.0), PriceSlot(HOUR, 2 * HOUR, 1.0), PriceSlot(2 * HOUR, 3 * HOUR, 9.0);
    s := Search([x, y, z], 2, 2 * HOUR, 0, 3 * HOUR);
    assert Rate(profile, HOUR) == 1.0;
    assert s.slots[0..2] == [x, y] && s.slots[1..3] == [y, z];
    hide WeightedAt, EstimatedAt;
    TwoStageCosts(x, y, 1.0, 0.1);
    TwoStageCosts(y, z, 1.0, 0.1);
    FirstValidIs(s.slots, 0, 0);
    var costs := WindowCosts(s, profile, HOUR);
    assert |costs| == 2 && costs[0] == WindowCost(s, profile, HOUR, 0) && costs[1] == WindowCost(s, profile, HOUR, 1);
    assert s.Candidate(1);
  }
}
