/** Cost of running a staged cycle over a window of slots (optimizer.go, calculateCostForWindow). */
module StageCosts {
  import opened Sums
  import opened PriceSlots

  datatype Profile = Profile(duration: Duration, weights: seq<real>, powerKW: real)

  datatype StageAllocation = StageAllocation(stageIndex: nat, slots: seq<PriceSlot>, weight: real, stageCost: real)

  class OptimizationResult {
    var startTime: Time
    var endTime: Time
    var estimatedCost: real
    var currentCost: real
    var savings: real
    var savingsPercent: real
    var slotAllocations: seq<StageAllocation>
    var weightedCost: real

    constructor (estimatedCost: real, weightedCost: real, slotAllocations: seq<StageAllocation>)
      ensures this.estimatedCost == estimatedCost && this.weightedCost == weightedCost
      ensures this.slotAllocations == slotAllocations
      ensures currentCost == savings == savingsPercent == 0.0
    {
      this.estimatedCost, this.weightedCost, this.slotAllocations := estimatedCost, weightedCost, slotAllocations;
      currentCost, savings, savingsPercent := 0.0, 0.0, 0.0;
      startTime, endTime := 0, 0;
    }
  }

  function Hours(d: Duration): real {
    d as real / HOUR as real
  }

  // ---- The stage partition, in exact arithmetic ----

  /** Slots of stage i are those from Boundary(i) up to Boundary(i + 1). */
  function Boundary(i: nat, len: nat, stages: nat): nat
    requires stages > 0
  {
    i * len / stages
  }

  /** The stage of slot j, without looking at any boundary. */
  function StageOf(j: nat, len: nat, stages: nat): (i: nat)
    requires j < len && stages > 0
    ensures i < stages
  {
    StageBelow(j, len, stages);
    ((j + 1) * stages - 1) / len
  }

  lemma ScaleUp(m: nat, x: int, y: int)
    requires x <= y
    ensures m * x <= m * y
  {
    assert m * (y - x) >= 0;
  }

  lemma QuotientBelow(a: int, m: int, q: int)
    requires m > 0
    ensures a / m < q <==> a < m * q
  {
    var r := a / m;
    assert a == m * r + a % m;
    if r < q {
      ScaleUp(m, r + 1, q);
    } else {
      ScaleUp(m, q, r);
    }
  }

  lemma StageBelow(j: nat, len: nat, stages: nat)
    requires j < len && stages > 0
    ensures ((j + 1) * stages - 1) / len < stages
  {
    ScaleUp(stages, j + 1, len);
    QuotientBelow((j + 1) * stages - 1, len, stages);
  }

  lemma BoundaryAtMost(i: nat, len: nat, stages: nat, j: nat)
    requires stages > 0
    ensures Boundary(i, len, stages) <= j <==> i * len < (j + 1) * stages
  {
    QuotientBelow(i * len, stages, j + 1);
  }

  lemma StageAtLeast(j: nat, len: nat, stages: nat, i: nat)
    requires j < len && stages > 0
    ensures StageOf(j, len, stages) >= i <==> i * len < (j + 1) * stages
  {
    QuotientBelow((j + 1) * stages - 1, len, i);
  }

  /** Every slot lies in exactly one stage, StageOf, however many stages and slots there are. */
  lemma StagesPartition(j: nat, len: nat, stages: nat, i: nat)
    requires j < len && stages > 0
    ensures Boundary(i, len, stages) <= j < Boundary(i + 1, len, stages) <==> i == StageOf(j, len, stages)
  {
    BoundaryAtMost(i, len, stages, j);
    BoundaryAtMost(i + 1, len, stages, j);
    StageAtLeast(j, len, stages, i);
    StageAtLeast(j, len, stages, i + 1);
  }

  lemma BoundariesAscend(i: nat, len: nat, stages: nat)
    requires i < stages
    ensures Boundary(0, len, stages) == 0 && Boundary(stages, len, stages) == len
    ensures Boundary(i, len, stages) <= Boundary(i + 1, len, stages) <= len
  {
    QuotientBelow(stages * len, stages, len);
    QuotientBelow(stages * len, stages, len + 1);
    BoundaryStep(i, len, stages);
    ScaleUp(len, i + 1, stages);
    QuotientBelow((i + 1) * len, stages, len + 1);
  }

  lemma BoundaryStep(i: nat, len: nat, stages: nat)
    requires stages > 0
    ensures Boundary(i, len, stages) <= Boundary(i + 1, len, stages)
  {
    var b := Boundary(i, len, stages);
    QuotientBelow(i * len, stages, b);
    QuotientBelow((i + 1) * len, stages, b);
  }

  /** The boundaries of all stages, and the stage of every slot. */
  function CutList(len: nat, stages: nat): (cuts: seq<nat>)
    requires stages > 0
    ensures |cuts| == stages + 1
  {
    seq(stages + 1, i requires 0 <= i => Boundary(i, len, stages))
  }

  function StageList(len: nat, stages: nat): (stage: seq<nat>)
    requires stages > 0
    ensures |stage| == len
    ensures forall j :: 0 <= j < len ==> stage[j] < stages
  {
    seq(len, j requires 0 <= j < len => StageOf(j, len, stages))
  }

  /** The cuts ascend from 0 to the end, and slot j lies between cuts i and i+1 exactly when its stage is i. */
  ghost predicate Partition(cuts: seq<nat>, stage: seq<nat>, stages: nat) {
    && |cuts| == stages + 1 && cuts[0] == 0 && cuts[stages] == |stage|
    && (forall i, k :: 0 <= i < stages && k == i + 1 ==> cuts[i] <= cuts[k] <= |stage|)
    && (forall j :: 0 <= j < |stage| ==> stage[j] < stages)
    && (forall i, j :: 0 <= i < stages && 0 <= j < |stage| ==> (cuts[i] <= j < cuts[i + 1] <==> stage[j] == i))
  }

  lemma ListsPartition(len: nat, stages: nat)
    requires stages > 0
    ensures Partition(CutList(len, stages), StageList(len, stages), stages)
  {
    BoundariesAscend(0, len, stages);
    forall i, k | 0 <= i < stages && k == i + 1
      ensures Boundary(i, len, stages) <= Boundary(k, len, stages) <= len
    {
      BoundariesAscend(i, len, stages);
    }
    forall i, j | 0 <= i < stages && 0 <= j < len
      ensures Boundary(i, len, stages) <= j < Boundary(i + 1, len, stages) <==> StageOf(j, len, stages) == i
    {
      StagesPartition(j, len, stages, i);
    }
  }

  // ---- Reference definitions of the two costs ----

  /** What one unit of price costs over a slot: power times slot hours. */
  function Rate(profile: Profile, slotDuration: Duration): real {
    profile.powerKW * Hours(slotDuration)
  }

  function EstimatedCost(profile: Profile, slots: seq<PriceSlot>, slotDuration: Duration): real {
    EstimatedAt(slots, profile.weights, Rate(profile, slotDuration))
  }

  function WeightedCost(profile: Profile, slots: seq<PriceSlot>, slotDuration: Duration): real {
    WeightedAt(slots, profile.weights, Rate(profile, slotDuration))
  }

  /** The sum of what the slots cost; a profile without stages costs nothing. */
  function EstimatedAt(slots: seq<PriceSlot>, weights: seq<real>, rate: real): real {
    if weights == [] then 0.0 else Sum(Charges(slots, rate), Id)
  }

  /** What each slot costs. */
  function Charges(slots: seq<PriceSlot>, rate: real): (r: seq<real>)
    ensures |r| == |slots|
  {
    seq(|slots|, j requires 0 <= j < |slots| => slots[j].price * rate)
  }

  /** What each slot costs, times the weight of its own stage. */
  function Weighted(charges: seq<real>, weights: seq<real>, stage: seq<nat>): (r: seq<real>)
    requires |stage| == |charges| && forall j :: 0 <= j < |stage| ==> stage[j] < |weights|
    ensures |r| == |charges|
  {
    seq(|charges|, j requires 0 <= j < |charges| => charges[j] * weights[stage[j]])
  }

  /** The sum of what the slots cost, each times the weight of its own stage. */
  function WeightedAt(slots: seq<PriceSlot>, weights: seq<real>, rate: real): real {
    if weights == [] then 0.0
    else Sum(Weighted(Charges(slots, rate), weights, StageList(|slots|, |weights|)), Id)
  }

  function AllocatedSlots(allocations: seq<StageAllocation>): seq<PriceSlot> {
    if allocations == [] then []
    else AllocatedSlots(allocations[..|allocations| - 1]) + allocations[|allocations| - 1].slots
  }

  function AllocatedCost(a: StageAllocation): real {
    a.stageCost
  }

  function AllocatedWeightedCost(a: StageAllocation): real {
    a.stageCost * a.weight
  }

  lemma Distribute(x: real, y: real, z: real, k: real)
    requires z == x + y
    ensures z * k == x * k + y * k
  {
  }

  lemma {:induction false} ChargesAddUp(slots: seq<PriceSlot>, charges: seq<real>, rate: real)
    requires |charges| == |slots| && forall j :: 0 <= j < |slots| ==> charges[j] == slots[j].price * rate
    ensures Sum(charges, Id) == Sum(slots, Price) * rate
  {
    if slots != [] {
      var n := |slots| - 1;
      ChargesAddUp(slots[..n], charges[..n], rate);
      Distribute(Sum(slots[..n], Price), slots[n].price, Sum(slots, Price), rate);
    }
  }

  ghost predicate IsScaled(xs: seq<real>, ys: seq<real>, k: real) {
    |xs| == |ys| && forall j :: 0 <= j < |xs| ==> ys[j] == xs[j] * k
  }

  lemma SumLast(xs: seq<real>)
    requires xs != []
    ensures Sum(xs, Id) == Sum(xs[..|xs| - 1], Id) + xs[|xs| - 1]
  {
  }

  lemma {:induction false} ScaledSum(xs: seq<real>, ys: seq<real>, k: real)
    requires IsScaled(xs, ys, k)
    ensures Sum(ys, Id) == Sum(xs, Id) * k
  {
    if xs == [] {
      assert Sum(xs, Id) == Sum(ys, Id) == 0.0;
    } else {
      hide Sum;
      var n := |xs| - 1;
      ScaledSum(xs[..n], ys[..n], k);
      SumLast(xs);
      SumLast(ys);
      ScaledStep(Sum(xs[..n], Id), xs[n], Sum(ys[..n], Id), ys[n], k);
    }
  }

  lemma ScaledStep(x: real, last: real, y: real, scaled: real, k: real)
    requires y == x * k && scaled == last * k
    ensures y + scaled == (x + last) * k
  {
  }

  lemma AverageTimesCount(total: real, n: nat, power: real, hours: real)
    requires n > 0
    ensures total / n as real * power * (n as real * hours) == total * (power * hours)
  {
    var avg := total / n as real;
    assert avg * n as real == total;
    assert avg * power * (n as real * hours) == avg * n as real * (power * hours);
  }

  /** Stage i holds the slots from b to e and costs what they cost. */
  ghost predicate IsAllocation(slots: seq<PriceSlot>, weights: seq<real>, charges: seq<real>, b: nat, e: nat, i: nat,
                               a: StageAllocation) {
    && i < |weights| && a.stageIndex == i && a.weight == weights[i]
    && b <= e <= |slots| == |charges| && a.slots == slots[b..e]
    && a.stageCost == Sum(charges[b..e], Id)
  }

  ghost predicate IsPlan(slots: seq<PriceSlot>, weights: seq<real>, charges: seq<real>, cuts: seq<nat>,
                         allocations: seq<StageAllocation>) {
    && |allocations| < |cuts|
    && forall i :: 0 <= i < |allocations| ==> IsAllocation(slots, weights, charges, cuts[i], cuts[i + 1], i, allocations[i])
  }

  /** One allocation a stage, which together hold every slot once and in order. */
  ghost predicate StagePlan(allocations: seq<StageAllocation>, profile: Profile, slots: seq<PriceSlot>,
                            slotDuration: Duration) {
    && |allocations| == |profile.weights|
    && (profile.weights != [] ==>
          && AllocatedSlots(allocations) == slots
          && IsPlan(slots, profile.weights, Charges(slots, Rate(profile, slotDuration)),
                    CutList(|slots|, |profile.weights|), allocations))
  }

  method CalculateCostForWindow(profile: Profile, slots: seq<PriceSlot>, slotDuration: Duration)
    returns (result: OptimizationResult)
    ensures fresh(result)
    ensures result.estimatedCost == EstimatedCost(profile, slots, slotDuration)
    ensures result.weightedCost == WeightedCost(profile, slots, slotDuration)
    ensures result.currentCost == result.savings == result.savingsPercent == 0.0
    ensures StagePlan(result.slotAllocations, profile, slots, slotDuration)
  {
    var weights := profile.weights;
    if |weights| == 0 {
      result := new OptimizationResult(0.0, 0.0, []);
      return;
    }
    var totalCost, weightedCost := 0.0, 0.0;
    var allocations: seq<StageAllocation> := [];
    ghost var cuts, charges := CutList(|slots|, |weights|), Charges(slots, Rate(profile, slotDuration));
    for stageIdx := 0 to |weights|
      invariant |allocations| == stageIdx
      invariant IsPlan(slots, weights, charges, cuts, allocations)
      invariant totalCost == Sum(allocations, AllocatedCost)
      invariant weightedCost == Sum(allocations, AllocatedWeightedCost)
    {
      var allocation := AllocateStage(profile, slots, slotDuration, stageIdx);
      assert (allocations + [allocation])[..stageIdx] == allocations;
      totalCost := totalCost + allocation.stageCost;
      weightedCost := weightedCost + AllocatedWeightedCost(allocation);
      allocations := allocations + [allocation];
    }
    PlanCosts(slots, weights, Rate(profile, slotDuration), allocations);
    result := new OptimizationResult(totalCost, weightedCost, allocations);
  }

  /** The body of the loop over the stages. */
  method AllocateStage(profile: Profile, slots: seq<PriceSlot>, slotDuration: Duration, stageIdx: nat)
    returns (allocation: StageAllocation)
    requires stageIdx < |profile.weights|
    ensures IsAllocation(slots, profile.weights, Charges(slots, Rate(profile, slotDuration)),
                         CutList(|slots|, |profile.weights|)[stageIdx], CutList(|slots|, |profile.weights|)[stageIdx + 1],
                         stageIdx, allocation)
  {
    var stageStartSlot := stageIdx * |slots| / |profile.weights|;
    var stageEndSlot := (stageIdx + 1) * |slots| / |profile.weights|;
    BoundariesAscend(stageIdx, |slots|, |profile.weights|);
    if stageEndSlot > |slots| {
      stageEndSlot := |slots|;
    }
    var stageSlots := slots[stageStartSlot..stageEndSlot];
    var stageCost := StageCost(stageSlots, profile.powerKW, slotDuration);
    allocation := StageAllocation(stageIdx, stageSlots, profile.weights[stageIdx], stageCost);
    StageIsAllocation(slots, profile.weights, Rate(profile, slotDuration), stageStartSlot, stageEndSlot, stageIdx,
                      allocation);
  }

  lemma StageIsAllocation(slots: seq<PriceSlot>, weights: seq<real>, rate: real, b: nat, e: nat, i: nat, a: StageAllocation)
    requires i < |weights| && b <= e <= |slots|
    requires a == StageAllocation(i, slots[b..e], weights[i], Sum(slots[b..e], Price) * rate)
    ensures IsAllocation(slots, weights, Charges(slots, rate), b, e, i, a)
  {
    ChargesAddUp(slots[b..e], Charges(slots, rate)[b..e], rate);
  }

  /** One stage: the average price of its slots, times power, times its length; nothing for an empty stage. */
  method StageCost(stageSlots: seq<PriceSlot>, powerKW: real, slotDuration: Duration) returns (stageCost: real)
    ensures stageCost == Sum(stageSlots, Price) * (powerKW * Hours(slotDuration))
  {
    var stagePrice := TotalPrice(stageSlots);
    if |stageSlots| > 0 {
      AverageTimesCount(stagePrice, |stageSlots|, powerKW, Hours(slotDuration));
      stagePrice := stagePrice / |stageSlots| as real;
    }
    var stageDuration := |stageSlots| as real * Hours(slotDuration);
    stageCost := stagePrice * powerKW * stageDuration;
  }

  /** The loop that adds up the prices of a stage. */
  method TotalPrice(slots: seq<PriceSlot>) returns (total: real)
    ensures total == Sum(slots, Price)
  {
    total := 0.0;
    for i := 0 to |slots|
      invariant total == Sum(slots[..i], Price)
    {
      SumPrefix(slots, i + 1, Price);
      total := total + slots[i].price;
    }
    assert slots[..|slots|] == slots;
  }

  /** The slots from b to e, with their part of both lists of charges. */
  ghost predicate IsBlock(slots: seq<PriceSlot>, charges: seq<real>, weighted: seq<real>, b: nat, e: nat,
                          a: StageAllocation) {
    && b <= e <= |slots| == |charges| == |weighted|
    && a.slots == slots[b..e]
    && AllocatedCost(a) == Sum(charges[b..e], Id)
    && AllocatedWeightedCost(a) == Sum(weighted[b..e], Id)
  }

  ghost predicate AddsUpTo(slots: seq<PriceSlot>, charges: seq<real>, weighted: seq<real>, e: nat,
                           allocations: seq<StageAllocation>) {
    && e <= |slots| == |charges| == |weighted|
    && AllocatedSlots(allocations) == slots[..e]
    && Sum(allocations, AllocatedCost) == Sum(charges[..e], Id)
    && Sum(allocations, AllocatedWeightedCost) == Sum(weighted[..e], Id)
  }

  lemma BlockAddsUp(slots: seq<PriceSlot>, charges: seq<real>, weighted: seq<real>, b: nat, e: nat,
                    allocations: seq<StageAllocation>, a: StageAllocation)
    requires AddsUpTo(slots, charges, weighted, b, allocations) && IsBlock(slots, charges, weighted, b, e, a)
    ensures AddsUpTo(slots, charges, weighted, e, allocations + [a])
  {
    assert (allocations + [a])[..|allocations|] == allocations;
    assert slots[..e] == slots[..b] + slots[b..e] && charges[..e] == charges[..b] + charges[b..e];
    assert weighted[..e] == weighted[..b] + weighted[b..e];
    SumAppend(charges[..b], charges[b..e], Id);
    SumAppend(weighted[..b], weighted[b..e], Id);
  }

  lemma {:induction false} BlocksAddUp(slots: seq<PriceSlot>, charges: seq<real>, weighted: seq<real>,
                                       cuts: seq<nat>, allocations: seq<StageAllocation>)
    requires |cuts| == |allocations| + 1 && cuts[0] == 0 && |charges| == |slots| == |weighted|
    requires forall i :: 0 <= i < |allocations| ==> IsBlock(slots, charges, weighted, cuts[i], cuts[i + 1], allocations[i])
    ensures AddsUpTo(slots, charges, weighted, cuts[|allocations|], allocations)
  {
    if allocations != [] {
      var n := |allocations| - 1;
      BlocksAddUp(slots, charges, weighted, cuts[..n + 1], allocations[..n]);
      BlockAddsUp(slots, charges, weighted, cuts[n], cuts[n + 1], allocations[..n], allocations[n]);
      assert allocations[..n] + [allocations[n]] == allocations;
    }
  }

  /** Slots of one weight: their weighted charges are that weight times their charges. */
  lemma PartIsScaled(charges: seq<real>, weights: seq<real>, stage: seq<nat>, b: nat, e: nat, w: real)
    requires |stage| == |charges| && (forall j :: 0 <= j < |stage| ==> stage[j] < |weights|) && b <= e <= |stage|
    requires forall j :: b <= j < e ==> weights[stage[j]] == w
    ensures IsScaled(charges[b..e], Weighted(charges, weights, stage)[b..e], w)
  {
    var weighted := Weighted(charges, weights, stage);
    forall j | 0 <= j < e - b ensures weighted[b..e][j] == charges[b..e][j] * w {
      SameProduct(charges[b + j], charges[b + j], weights[stage[b + j]], w);
    }
  }

  lemma StageIsBlock(slots: seq<PriceSlot>, weights: seq<real>, charges: seq<real>, cuts: seq<nat>, stage: seq<nat>,
                     i: nat, a: StageAllocation)
    requires Partition(cuts, stage, |weights|) && |stage| == |slots| && i < |weights|
    requires IsAllocation(slots, weights, charges, cuts[i], cuts[i + 1], i, a)
    ensures IsBlock(slots, charges, Weighted(charges, weights, stage), cuts[i], cuts[i + 1], a)
  {
    var b, e, weighted := cuts[i], cuts[i + 1], Weighted(charges, weights, stage);
    hide IsScaled, Weighted;
    PartIsScaled(charges, weights, stage, b, e, weights[i]);
    ScaledSum(charges[b..e], weighted[b..e], weights[i]);
    SameProduct(a.stageCost, Sum(charges[b..e], Id), a.weight, weights[i]);
  }

  /** All stages together: every slot once and in order, and exactly the two reference costs. */
  lemma StagesAddUp(slots: seq<PriceSlot>, weights: seq<real>, charges: seq<real>, cuts: seq<nat>, stage: seq<nat>,
                    allocations: seq<StageAllocation>)
    requires Partition(cuts, stage, |weights|) && |stage| == |slots| == |charges|
    requires |allocations| == |weights| && weights != [] && IsPlan(slots, weights, charges, cuts, allocations)
    ensures AllocatedSlots(allocations) == slots
    ensures Sum(allocations, AllocatedCost) == Sum(charges, Id)
    ensures Sum(allocations, AllocatedWeightedCost) == Sum(Weighted(charges, weights, stage), Id)
  {
    var weighted := Weighted(charges, weights, stage);
    forall i | 0 <= i < |allocations|
      ensures IsBlock(slots, charges, weighted, cuts[i], cuts[i + 1], allocations[i])
    {
      StageIsBlock(slots, weights, charges, cuts, stage, i, allocations[i]);
    }
    BlocksAddUp(slots, charges, weighted, cuts, allocations);
    assert charges[..|slots|] == charges && weighted[..|slots|] == weighted && slots[..|slots|] == slots;
  }

  lemma PlanCosts(slots: seq<PriceSlot>, weights: seq<real>, rate: real, allocations: seq<StageAllocation>)
    requires |allocations| == |weights| && weights != []
    requires IsPlan(slots, weights, Charges(slots, rate), CutList(|slots|, |weights|), allocations)
    ensures AllocatedSlots(allocations) == slots
    ensures Sum(allocations, AllocatedCost) == EstimatedAt(slots, weights, rate)
    ensures Sum(allocations, AllocatedWeightedCost) == WeightedAt(slots, weights, rate)
  {
    var charges := Charges(slots, rate);
    ListsPartition(|slots|, |weights|);
    StagesAddUp(slots, weights, charges, CutList(|slots|, |weights|), StageList(|slots|, |weights|), allocations);
  }

  /** In closed form: power times slot hours times the sum of all slot prices. */
  lemma EstimatedCostClosedForm(profile: Profile, slots: seq<PriceSlot>, slotDuration: Duration)
    requires profile.weights != []
    ensures EstimatedCost(profile, slots, slotDuration) == Sum(slots, Price) * (profile.powerKW * Hours(slotDuration))
  {
    ChargesAddUp(slots, Charges(slots, Rate(profile, slotDuration)), Rate(profile, slotDuration));
  }

  /** Each slot costs its price times the power and the hours of a slot. */
  ghost predicate ArePrices(costs: seq<real>, profile: Profile, slots: seq<PriceSlot>, slotDuration: Duration) {
    && |costs| == |slots|
    && forall j :: 0 <= j < |slots| ==>
                     costs[j] == slots[j].price * (profile.powerKW * (slotDuration as real / 3_600_000_000_000.0))
  }

  /** Each cost times the weight of the stage in which its slot ends. */
  ghost predicate AreWeighted(weighted: seq<real>, costs: seq<real>, weights: seq<real>) {
    && |weighted| == |costs|
    && forall i: nat, j: nat :: j < |costs| && i < |weights|
                                && i * |costs| < (j + 1) * |weights| <= (i + 1) * |costs| ==>
                                  weighted[j] == costs[j] * weights[i]
  }

  /** Both costs are sums over the slots; without stages there are none. */
  lemma CostsBySlot(profile: Profile, slots: seq<PriceSlot>, slotDuration: Duration)
    returns (costs: seq<real>, weighted: seq<real>)
    ensures ArePrices(costs, profile, slots, slotDuration)
    ensures if profile.weights == [] then EstimatedCost(profile, slots, slotDuration) == 0.0
            else EstimatedCost(profile, slots, slotDuration) == Sum(costs, Id)
    ensures if profile.weights == [] then WeightedCost(profile, slots, slotDuration) == 0.0
            else
              && AreWeighted(weighted, costs, profile.weights)
              && WeightedCost(profile, slots, slotDuration) == Sum(weighted, Id)
  {
    hide ArePrices, AreWeighted, Sum, Rate, StageList, Weighted, Charges;
    costs := Charges(slots, Rate(profile, slotDuration));
    weighted := [];
    ChargesArePrices(profile, slots, slotDuration);
    if profile.weights != [] {
      weighted := Weighted(costs, profile.weights, StageList(|slots|, |profile.weights|));
      StagesAreWeighted(costs, profile.weights);
    }
  }

  lemma ChargesArePrices(profile: Profile, slots: seq<PriceSlot>, slotDuration: Duration)
    ensures ArePrices(Charges(slots, Rate(profile, slotDuration)), profile, slots, slotDuration)
  {
    var rate, hours := Rate(profile, slotDuration), slotDuration as real / 3_600_000_000_000.0;
    RateInHours(profile, slotDuration);
    hide Rate;
    forall j | 0 <= j < |slots| ensures slots[j].price * rate == slots[j].price * (profile.powerKW * hours) {
      SameProduct(slots[j].price, slots[j].price, rate, profile.powerKW * hours);
    }
  }

  lemma StagesAreWeighted(costs: seq<real>, weights: seq<real>)
    requires weights != []
    ensures AreWeighted(Weighted(costs, weights, StageList(|costs|, |weights|)), costs, weights)
  {
    var weighted := Weighted(costs, weights, StageList(|costs|, |weights|));
    hide StageOf;
    forall i: nat, j: nat | j < |costs| && i < |weights| && i * |costs| < (j + 1) * |weights| <= (i + 1) * |costs|
      ensures weighted[j] == costs[j] * weights[i]
    {
      StageBetween(j, |costs|, |weights|, i);
    }
  }

  lemma RateInHours(profile: Profile, slotDuration: Duration)
    ensures Rate(profile, slotDuration) == profile.powerKW * (slotDuration as real / 3_600_000_000_000.0)
  {
  }

  lemma StageBetween(j: nat, n: nat, stages: nat, i: nat)
    requires j < n && stages > 0 && i * n < (j + 1) * stages <= (i + 1) * n
    ensures StageOf(j, n, stages) == i
  {
    hide StageOf;
    StageAtLeast(j, n, stages, i);
    StageAtLeast(j, n, stages, i + 1);
  }

  lemma SameProduct(x: real, y: real, v: real, w: real)
    requires x == y && v == w
    ensures x * v == y * w
  {
  }

  /** The weight of the stage of each of k slots; stages without a slot have no say. */
  function EffectiveWeights(weights: seq<real>, k: nat): (e: seq<real>)
    requires weights != []
    ensures |e| == k && forall j :: 0 <= j < k ==> e[j] == weights[StageList(k, |weights|)[j]]
  {
    var stage := StageList(k, |weights|);
    seq(k, j requires 0 <= j < k => weights[stage[j]])
  }

  /** With one weight for every slot the weighted cost is that weight times the estimated cost. */
  lemma EqualWeights(slots: seq<PriceSlot>, weights: seq<real>, rate: real, w: real)
    requires weights != [] && forall j :: 0 <= j < |slots| ==> EffectiveWeights(weights, |slots|)[j] == w
    ensures WeightedAt(slots, weights, rate) == EstimatedAt(slots, weights, rate) * w
  {
    var stage := StageList(|slots|, |weights|);
    forall j | 0 <= j < |slots| ensures weights[stage[j]] == w {
      assert EffectiveWeights(weights, |slots|)[j] == w;
    }
    EquallyWeighted(Charges(slots, rate), weights, stage, w);
  }

  lemma EquallyWeighted(charges: seq<real>, weights: seq<real>, stage: seq<nat>, w: real)
    requires |stage| == |charges| && forall j :: 0 <= j < |stage| ==> stage[j] < |weights|
    requires forall j :: 0 <= j < |stage| ==> weights[stage[j]] == w
    ensures Sum(Weighted(charges, weights, stage), Id) == Sum(charges, Id) * w
  {
    hide IsScaled;
    var n, weighted := |charges|, Weighted(charges, weights, stage);
    PartIsScaled(charges, weights, stage, 0, n, w);
    assert charges[0..n] == charges && weighted[0..n] == weighted;
    ScaledSum(charges, weighted, w);
  }
}
