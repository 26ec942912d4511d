/** The search for the cheapest start of a device cycle (optimizer.go, Optimize). */
module WindowSearch {
  import opened Options
  import opened PriceSlots
  import opened StageCosts

  datatype Request = Request(profile: Profile, slots: seq<PriceSlot>, maxDelayHours: int, startAfter: Option<Time>)

  /** The fewest slots that last the cycle, capped by what is available. */
  function SlotsNeeded(cycle: Duration, slotDuration: Duration, available: nat): (k: nat)
    requires cycle >= 0 && slotDuration > 0
    ensures k <= available && (available > 0 ==> (k == 0 <==> cycle == 0))
    ensures k < available ==> cycle <= k * slotDuration
    ensures k > 0 ==> (k - 1) * slotDuration < cycle
  {
    var ceil := (cycle + slotDuration - 1) / slotDuration;
    CeilingBounds(cycle, slotDuration, ceil);
    assert available <= ceil ==> (available - 1) * slotDuration <= (ceil - 1) * slotDuration by {
      if available <= ceil {
        ScaleUp(slotDuration, available - 1, ceil - 1);
      }
    }
    if ceil > available then available else ceil
  }

  lemma CeilingBounds(cycle: Duration, slotDuration: Duration, ceil: int)
    requires cycle >= 0 && slotDuration > 0 && ceil == (cycle + slotDuration - 1) / slotDuration
    ensures ceil >= 0 && (ceil == 0 <==> cycle == 0)
    ensures (ceil - 1) * slotDuration < cycle <= ceil * slotDuration
  {
    var x := cycle + slotDuration - 1;
    QuotientBelow(x, slotDuration, ceil);
    QuotientBelow(x, slotDuration, ceil + 1);
    QuotientBelow(x, slotDuration, 1);
    QuotientBelow(x, slotDuration, 0);
  }

  function StartTime(startAfter: Option<Time>, clock: Time): Time {
    if startAfter.Some? && startAfter.value > clock then startAfter.value else clock
  }

  function ClampedStart(s: PriceSlot, now: Time): Time {
    if s.from < now then now else s.from
  }

  /** What the search is given: k slots are needed for a cycle that may start at now and must end by the deadline. */
  datatype Search = Search(slots: seq<PriceSlot>, k: nat, cycle: Duration, now: Time, deadline: Time) {
    /** The cycle can start in slot i: there are enough slots, it has not ended before now, it ends in time. */
    ghost predicate Candidate(i: nat) {
      i + k <= |slots| && i < |slots| && slots[i].till >= now && ClampedStart(slots[i], now) + cycle <= deadline
    }

    /** Slot i makes the loop break. */
    ghost predicate Overruns(i: nat) {
      i < |slots| && slots[i].till >= now && ClampedStart(slots[i], now) + cycle > deadline
    }

    /** Without a slot to fill, and nothing to make it break, the loop reads one slot past the end. */
    ghost predicate Panics() {
      k == 0 && forall i: nat :: !Overruns(i)
    }

    ghost predicate Reached(i: nat) {
      Candidate(i) && forall j: nat :: j < i ==> !Overruns(j)
    }
  }

  function WindowCost(s: Search, profile: Profile, slotDuration: Duration, i: nat): real
    requires i + s.k <= |s.slots|
  {
    WeightedCost(profile, s.slots[i..i + s.k], slotDuration)
  }

  /** The weighted cost of the window from every start that has one. */
  function WindowCosts(s: Search, profile: Profile, slotDuration: Duration): (costs: seq<real>)
    requires s.k <= |s.slots|
    ensures |costs| == |s.slots| - s.k + 1
    ensures forall i :: 0 <= i < |costs| ==> costs[i] == WindowCost(s, profile, slotDuration, i)
  {
    seq(|s.slots| - s.k + 1, i requires 0 <= i <= |s.slots| - s.k => WindowCost(s, profile, slotDuration, i))
  }

  /** Among the starts below n that the loop reaches: i is one, none is cheaper, and earlier ones are dearer. */
  ghost predicate BestReachedBelow(s: Search, costs: seq<real>, n: nat, i: nat) {
    && i < n <= |costs| && s.Reached(i)
    && (forall j: nat :: j < n && s.Reached(j) ==> costs[i] <= costs[j])
    && (forall j: nat :: j < i && s.Reached(j) ==> costs[i] < costs[j])
  }

  /** The earliest of the cheapest among all candidates. */
  ghost predicate EarliestBest(s: Search, costs: seq<real>, i: nat) {
    && |costs| + s.k == |s.slots| + 1
    && s.Candidate(i)
    && (forall j: nat :: s.Candidate(j) ==> costs[i] <= costs[j])
    && (forall j: nat :: j < i && s.Candidate(j) ==> costs[i] < costs[j])
  }

  lemma BestSoFar(s: Search, costs: seq<real>, n: nat, i: nat)
    requires n < |costs|
    requires BestReachedBelow(s, costs, n, i)
    requires s.Reached(n) ==> costs[i] <= costs[n]
    ensures BestReachedBelow(s, costs, n + 1, i)
  {
  }

  lemma NewBest(s: Search, costs: seq<real>, n: nat, i: nat)
    requires n < |costs| && s.Reached(n)
    requires (forall j: nat :: j < n ==> !s.Reached(j)) || (BestReachedBelow(s, costs, n, i) && costs[n] < costs[i])
    ensures BestReachedBelow(s, costs, n + 1, n)
  {
  }

  /** The times and costs of starting in slot i. */
  ghost predicate DescribesWindow(r: OptimizationResult, s: Search, profile: Profile, slotDuration: Duration, i: nat)
    requires i + s.k <= |s.slots| && i < |s.slots|
    reads r
  {
    && r.startTime == ClampedStart(s.slots[i], s.now)
    && r.endTime == r.startTime + s.cycle
    && r.estimatedCost == EstimatedCost(profile, s.slots[i..i + s.k], slotDuration)
    && r.weightedCost == WindowCost(s, profile, slotDuration, i)
    && StagePlan(r.slotAllocations, profile, s.slots[i..i + s.k], slotDuration)
    && r.currentCost == r.savings == r.savingsPercent == 0.0
  }

  method FindBestWindow(s: Search, profile: Profile, slotDuration: Duration)
    returns (best: OptimizationResult?, panics: bool, ghost at: nat)
    requires s.k <= |s.slots|
    ensures panics <==> s.Panics()
    ensures best != null ==> fresh(best) && at < |s.slots| && at + s.k <= |s.slots|
    ensures !panics ==> (best == null <==> forall i: nat :: !s.Reached(i))
    ensures !panics && best != null ==>
              BestReachedBelow(s, WindowCosts(s, profile, slotDuration), |s.slots| - s.k + 1, at)
    ensures !panics && best != null ==> DescribesWindow(best, s, profile, slotDuration, at)
  {
    hide WindowCost, BestReachedBelow, DescribesWindow, Search.Panics;
    best, panics, at := null, false, 0;
    ghost var costs := WindowCosts(s, profile, slotDuration);
    var startIdx := 0;
    while startIdx <= |s.slots| - s.k
      invariant 0 <= startIdx <= |s.slots| - s.k + 1 && startIdx <= |s.slots| && !panics
      invariant forall j: nat :: j < startIdx ==> !s.Overruns(j)
      invariant best != null ==> fresh(best) && at < startIdx && at < |s.slots| && at + s.k <= |s.slots|
      invariant best == null <==> forall i: nat :: i < startIdx ==> !s.Reached(i)
      invariant best != null ==> BestReachedBelow(s, costs, startIdx, at)
      invariant best != null ==> DescribesWindow(best, s, profile, slotDuration, at) && best.weightedCost == costs[at]
    {
      if startIdx == |s.slots| {
        RunsPastTheEnd(s);
        return best, true, at;
      }
      var startSlot := s.slots[startIdx];
      if startSlot.till < s.now {
        if best != null {
          BestSoFar(s, costs, startIdx, at);
        }
        startIdx := startIdx + 1;
        continue;
      }
      var startTime := startSlot.from;
      if startTime < s.now {
        startTime := s.now;
      }
      var endTime := startTime + s.cycle;
      if endTime > s.deadline {
        BreakPreventsPanic(s, startIdx);
        NothingReachedAfter(s, costs, startIdx, at);
        break;
      }
      assert s.Reached(startIdx);
      var result := EvaluateWindow(s, profile, slotDuration, startIdx, startTime, endTime);
      if best == null || result.weightedCost < best.weightedCost {
        NewBest(s, costs, startIdx, at);
        best, at := result, startIdx;
      } else {
        BestSoFar(s, costs, startIdx, at);
      }
      startIdx := startIdx + 1;
    }
    SomethingToFill(s);
  }

  lemma SomethingToFill(s: Search)
    ensures s.k > 0 ==> !s.Panics()
  {
  }

  lemma BreakPreventsPanic(s: Search, i: nat)
    requires s.Overruns(i)
    ensures !s.Panics()
  {
  }

  lemma RunsPastTheEnd(s: Search)
    requires s.k == 0 && forall j: nat :: j < |s.slots| ==> !s.Overruns(j)
    ensures s.Panics()
  {
  }

  /** The cost of the window from one start, with its times filled in. */
  method EvaluateWindow(s: Search, profile: Profile, slotDuration: Duration, i: nat, startTime: Time, endTime: Time)
    returns (result: OptimizationResult)
    requires i + s.k <= |s.slots| && i < |s.slots|
    requires startTime == ClampedStart(s.slots[i], s.now) && endTime == startTime + s.cycle
    ensures fresh(result) && DescribesWindow(result, s, profile, slotDuration, i)
    ensures result.weightedCost == WindowCost(s, profile, slotDuration, i)
  {
    hide WeightedCost, EstimatedCost, StagePlan;
    result := CalculateCostForWindow(profile, s.slots[i..i + s.k], slotDuration);
    result.startTime, result.endTime := startTime, endTime;
  }

  lemma NothingReachedAfter(s: Search, costs: seq<real>, n: nat, i: nat)
    requires s.Overruns(n) && n < |costs|
    ensures forall j: nat :: n <= j ==> !s.Reached(j)
    ensures BestReachedBelow(s, costs, n, i) ==> BestReachedBelow(s, costs, |costs|, i)
  {
  }

  /** On slots sorted by start the early break loses no candidate. */
  lemma BreakLosesNothing(s: Search, i: nat)
    requires SortedByFrom(s.slots)
    ensures s.Candidate(i) <==> s.Reached(i)
  {
    if s.Candidate(i) {
      forall j: nat | j < i ensures !s.Overruns(j) {
        assert s.slots[j].from <= s.slots[i].from;
      }
    }
  }

  lemma BestReachedIsBest(s: Search, costs: seq<real>, i: nat)
    requires SortedByFrom(s.slots) && |costs| + s.k == |s.slots| + 1
    requires BestReachedBelow(s, costs, |costs|, i)
    ensures EarliestBest(s, costs, i)
  {
    forall j: nat ensures s.Candidate(j) <==> s.Reached(j) {
      BreakLosesNothing(s, j);
    }
  }

  // ---- The immediate start and the savings ----

  method FindFirstValidSlot(slots: seq<PriceSlot>, now: Time) returns (f: nat)
    ensures f == FirstValid(slots, now)
  {
    for i := 0 to |slots|
      invariant forall j :: 0 <= j < i ==> slots[j].till < now
    {
      if !(slots[i].till < now) {
        FirstValidIs(slots, now, i);
        return i;
      }
    }
    NoneValid(slots, now);
    f := 0;
  }

  /** The first slot that has not ended before now, or slot 0 if all have. */
  function FirstValid(slots: seq<PriceSlot>, now: Time): nat {
    var f := CountEnded(slots, now);
    if f < |slots| then f else 0
  }

  function CountEnded(slots: seq<PriceSlot>, now: Time): (f: nat)
    ensures f <= |slots|
    ensures forall j :: 0 <= j < f ==> slots[j].till < now
    ensures f < |slots| ==> slots[f].till >= now
  {
    if slots == [] || slots[0].till >= now then 0 else 1 + CountEnded(slots[1..], now)
  }

  lemma FirstValidIs(slots: seq<PriceSlot>, now: Time, i: nat)
    requires i < |slots| && slots[i].till >= now && forall j :: 0 <= j < i ==> slots[j].till < now
    ensures FirstValid(slots, now) == i
  {
    var f := CountEnded(slots, now);
    assert !(f < i);
    assert !(i < f);
  }

  lemma NoneValid(slots: seq<PriceSlot>, now: Time)
    requires forall j :: 0 <= j < |slots| ==> slots[j].till < now
    ensures FirstValid(slots, now) == 0
  {
  }

  /** When any start is a candidate, so is the immediate one: the guard in calculateSavings always holds. */
  lemma ImmediateIsCandidate(s: Search, i: nat)
    requires SortedByFrom(s.slots) && s.Candidate(i)
    ensures FirstValid(s.slots, s.now) <= i && s.Candidate(FirstValid(s.slots, s.now))
  {
    var f := FirstValid(s.slots, s.now);
    assert CountEnded(s.slots, s.now) <= i;
    assert s.slots[f].from <= s.slots[i].from;
  }

  method CalculateSavings(result: OptimizationResult, s: Search, profile: Profile, slotDuration: Duration)
    requires s.k <= |s.slots| && s.slots != []
    modifies result
    ensures result.startTime == old(result.startTime) && result.endTime == old(result.endTime)
    ensures result.estimatedCost == old(result.estimatedCost) && result.weightedCost == old(result.weightedCost)
    ensures result.slotAllocations == old(result.slotAllocations)
    ensures var f := FirstValid(s.slots, s.now);
            if f + s.k <= |s.slots| then
              && result.currentCost == EstimatedCost(profile, s.slots[f..f + s.k], slotDuration)
              && result.savings == result.currentCost - result.estimatedCost
              && (result.currentCost > 0.0 ==> result.savingsPercent == result.savings / result.currentCost * 100.0)
              && (result.currentCost <= 0.0 ==> result.savingsPercent == old(result.savingsPercent))
            else
              && result.currentCost == old(result.currentCost) && result.savings == old(result.savings)
              && result.savingsPercent == old(result.savingsPercent)
  {
    hide WeightedCost, EstimatedCost, StagePlan;
    var f := FindFirstValidSlot(s.slots, s.now);
    if f + s.k <= |s.slots| {
      var immediate := CalculateCostForWindow(profile, s.slots[f..f + s.k], slotDuration);
      result.currentCost := immediate.estimatedCost;
      result.savings := immediate.estimatedCost - result.estimatedCost;
      if immediate.estimatedCost > 0.0 {
        result.savingsPercent := result.savings / immediate.estimatedCost * 100.0;
      }
    }
  }

  method CreateImmediateResult(s: Search, profile: Profile, slotDuration: Duration) returns (result: OptimizationResult)
    requires s.k <= |s.slots| && s.slots != []
    ensures fresh(result)
    ensures var f := FirstValid(s.slots, s.now);
            var end := if f + s.k > |s.slots| then |s.slots| else f + s.k;
            && result.startTime == ClampedStart(s.slots[f], s.now) && result.endTime == result.startTime + s.cycle
            && result.estimatedCost == EstimatedCost(profile, s.slots[f..end], slotDuration)
            && result.weightedCost == WeightedCost(profile, s.slots[f..end], slotDuration)
            && StagePlan(result.slotAllocations, profile, s.slots[f..end], slotDuration)
            && result.currentCost == result.estimatedCost && result.savings == result.savingsPercent == 0.0
  {
    hide WeightedCost, EstimatedCost, StagePlan;
    var f := FindFirstValidSlot(s.slots, s.now);
    var slotsToUse := s.k;
    if f + slotsToUse > |s.slots| {
      slotsToUse := |s.slots| - f;
    }
    result := CalculateCostForWindow(profile, s.slots[f..f + slotsToUse], slotDuration);
    var slotStart := s.slots[f].from;
    if slotStart < s.now {
      slotStart := s.now;
    }
    result.startTime, result.endTime := slotStart, slotStart + s.cycle;
    result.currentCost, result.savings, result.savingsPercent := result.estimatedCost, 0.0, 0.0;
  }

  function SearchFor(req: Request, clock: Time): Search
    requires req.slots != [] && req.profile.duration >= 0 && Length(req.slots[0]) > 0
  {
    var now := StartTime(req.startAfter, clock);
    Search(req.slots, SlotsNeeded(req.profile.duration, Length(req.slots[0]), |req.slots|), req.profile.duration,
           now, now + req.maxDelayHours * HOUR)
  }

  /** The result starts in slot i and its savings compare it with the immediate start. */
  ghost predicate IsPlanFor(r: OptimizationResult, s: Search, profile: Profile, slotDuration: Duration, i: nat)
    requires i < |s.slots| && i + s.k <= |s.slots| && FirstValid(s.slots, s.now) + s.k <= |s.slots|
    reads r
  {
    && r.startTime == ClampedStart(s.slots[i], s.now) && r.endTime == r.startTime + s.cycle
    && r.weightedCost == WindowCost(s, profile, slotDuration, i)
    && r.weightedCost <= WindowCost(s, profile, slotDuration, FirstValid(s.slots, s.now))
    && r.estimatedCost == EstimatedCost(profile, s.slots[i..i + s.k], slotDuration)
    && StagePlan(r.slotAllocations, profile, s.slots[i..i + s.k], slotDuration)
    && r.currentCost == ImmediateCost(s, profile, slotDuration)
    && r.savings == r.currentCost - r.estimatedCost
    && r.savingsPercent == (if r.currentCost > 0.0 then r.savings / r.currentCost * 100.0 else 0.0)
  }

  function ImmediateCost(s: Search, profile: Profile, slotDuration: Duration): real
    requires FirstValid(s.slots, s.now) + s.k <= |s.slots|
  {
    EstimatedCost(profile, s.slots[FirstValid(s.slots, s.now)..FirstValid(s.slots, s.now) + s.k], slotDuration)
  }

  /**
   * On slots sorted by start: the earliest cheapest candidate, with savings against the immediate start; or
   * the immediate start when there is no candidate.
   */
  ghost predicate IsAnswer(r: OptimizationResult, s: Search, profile: Profile, slotDuration: Duration, at: nat)
    requires s.k <= |s.slots| && s.slots != [] && SortedByFrom(s.slots)
    reads r
  {
    var f := FirstValid(s.slots, s.now);
    if exists i: nat :: s.Candidate(i) then
      && EarliestBest(s, WindowCosts(s, profile, slotDuration), at) && s.Candidate(f)
      && IsPlanFor(r, s, profile, slotDuration, at)
    else
      var end := if f + s.k > |s.slots| then |s.slots| else f + s.k;
      && r.startTime == ClampedStart(s.slots[f], s.now) && r.endTime == r.startTime + s.cycle
      && r.estimatedCost == EstimatedCost(profile, s.slots[f..end], slotDuration)
      && r.weightedCost == WeightedCost(profile, s.slots[f..end], slotDuration)
      && StagePlan(r.slotAllocations, profile, s.slots[f..end], slotDuration)
      && r.currentCost == r.estimatedCost && r.savings == r.savingsPercent == 0.0
  }

  method BestOrImmediate(s: Search, profile: Profile, slotDuration: Duration)
    returns (result: OptimizationResult?)
    requires s.k <= |s.slots| && s.slots != []
    ensures result == null <==> s.Panics()
    ensures result != null && SortedByFrom(s.slots) ==> exists at: nat :: IsAnswer(result, s, profile, slotDuration, at)
  {
    hide WeightedCost, EstimatedCost, StagePlan;
    CandidatesAreReached(s);
    var bestResult, panics;
    ghost var at: nat;
    bestResult, panics, at := FindBestWindow(s, profile, slotDuration);
    if panics {
      return null;
    }
    if bestResult == null {
      result := CreateImmediateResult(s, profile, slotDuration);
      assert SortedByFrom(s.slots) ==> IsAnswer(result, s, profile, slotDuration, 0);
      return;
    }
    result := bestResult;
    CalculateSavings(result, s, profile, slotDuration);
    if SortedByFrom(s.slots) {
      BestReachedIsBest(s, WindowCosts(s, profile, slotDuration), at);
      ImmediateIsCandidate(s, at);
      assert IsAnswer(result, s, profile, slotDuration, at);
    }
  }

  // ---- In terms of the request ----

  /** k slots, each as long as the first, are the fewest that last the cycle, or all there are. */
  ghost predicate FewestSlots(req: Request, k: nat)
    requires req.slots != []
  {
    var length := req.slots[0].till - req.slots[0].from;
    && k <= |req.slots| && (k < |req.slots| ==> req.profile.duration <= k * length)
    && (k > 0 ==> (k - 1) * length < req.profile.duration)
  }

  /** The later of the clock and the earliest start asked for. */
  ghost function EarliestStart(req: Request, clock: Time): Time {
    if req.startAfter.Some? && clock < req.startAfter.value then req.startAfter.value else clock
  }

  /** When a cycle in slot i starts, if none may before now. */
  ghost function StartIn(req: Request, now: Time, i: nat): Time
    requires i < |req.slots|
  {
    if req.slots[i].from >= now then req.slots[i].from else now
  }

  /** The cycle can start in slot i: it has not ended before now, k slots are left, and it ends in time. */
  ghost predicate CanStart(req: Request, now: Time, k: nat, i: nat) {
    && i < |req.slots| && i + k <= |req.slots| && req.slots[i].till >= now
    && StartIn(req, now, i) + req.profile.duration <= now + req.maxDelayHours * 3_600_000_000_000
  }

  /** Slot f is the first that has not ended before now, or the first of all if every slot has. */
  ghost predicate IsFirstLeft(slots: seq<PriceSlot>, now: Time, f: nat) {
    && f < |slots|
    && if exists j :: 0 <= j < |slots| && slots[j].till >= now then
         slots[f].till >= now && forall j :: 0 <= j < f ==> slots[j].till < now
       else f == 0
  }

  function CostFrom(req: Request, i: nat, k: nat): real
    requires req.slots != [] && i + k <= |req.slots|
  {
    WeightedCost(req.profile, req.slots[i..i + k], Length(req.slots[0]))
  }

  function EstimateFrom(req: Request, i: nat, k: nat): real
    requires req.slots != [] && i + k <= |req.slots|
  {
    EstimatedCost(req.profile, req.slots[i..i + k], Length(req.slots[0]))
  }

  /** The cycle runs from slot i on, at the cost of the k slots from there. */
  ghost predicate RunsFrom(r: OptimizationResult, req: Request, now: Time, k: nat, i: nat)
    requires req.slots != [] && i < |req.slots| && i + k <= |req.slots|
    reads r
  {
    && r.startTime == StartIn(req, now, i) && r.endTime == r.startTime + req.profile.duration
    && r.weightedCost == CostFrom(req, i, k) && r.estimatedCost == EstimateFrom(req, i, k)
  }

  /** Among the slots it can start in, i is the earliest of those that cost least. */
  ghost predicate IsCheapestStart(req: Request, now: Time, k: nat, i: nat)
    requires req.slots != []
  {
    && CanStart(req, now, k, i)
    && (forall j: nat :: CanStart(req, now, k, j) ==> CostFrom(req, i, k) <= CostFrom(req, j, k))
    && (forall j: nat :: j < i && CanStart(req, now, k, j) ==> CostFrom(req, i, k) < CostFrom(req, j, k))
  }

  /** What is saved is measured against the start in slot f. */
  ghost predicate SavesAgainst(r: OptimizationResult, req: Request, k: nat, f: nat)
    requires req.slots != [] && f + k <= |req.slots|
    reads r
  {
    && r.currentCost == EstimateFrom(req, f, k) && r.savings == r.currentCost - r.estimatedCost
    && r.savingsPercent == if r.currentCost > 0.0 then r.savings / r.currentCost * 100.0 else 0.0
  }

  /** The cheapest start in time, with its savings against the first slot left; or else a start in that slot. */
  ghost predicate AnswersWith(r: OptimizationResult, req: Request, now: Time, k: nat, f: nat, i: nat)
    requires req.slots != []
    reads r
  {
    && FewestSlots(req, k) && IsFirstLeft(req.slots, now, f)
    && if exists j: nat :: CanStart(req, now, k, j) then
         && IsCheapestStart(req, now, k, i) && RunsFrom(r, req, now, k, i)
         && CanStart(req, now, k, f) && SavesAgainst(r, req, k, f)
       else
         var left := if f + k > |req.slots| then |req.slots| - f else k;
         RunsFrom(r, req, now, left, f) && r.currentCost == r.estimatedCost && r.savings == r.savingsPercent == 0.0
  }

  ghost predicate AnswersRequest(r: OptimizationResult, req: Request, clock: Time)
    requires req.slots != []
    reads r
  {
    exists k: nat, f: nat, i: nat :: AnswersWith(r, req, EarliestStart(req, clock), k, f, i)
  }

  /** A cycle of no length reads past the last slot unless a slot that has not ended starts too late. */
  ghost predicate ReadsPastTheEnd(req: Request, now: Time) {
    && req.profile.duration == 0
    && forall i: nat :: i < |req.slots| && req.slots[i].till >= now ==>
                          StartIn(req, now, i) <= now + req.maxDelayHours * 3_600_000_000_000
  }

  /** The search is for what the request asks for. */
  ghost predicate IsSearchOf(s: Search, req: Request, now: Time)
    requires req.slots != []
  {
    && s.slots == req.slots && s.now == now && s.cycle == req.profile.duration && FewestSlots(req, s.k)
    && (forall i: nat :: s.Candidate(i) <==> CanStart(req, now, s.k, i))
    && (forall i: nat :: i < |req.slots| ==> ClampedStart(req.slots[i], now) == StartIn(req, now, i))
  }

  lemma SearchIsRequest(req: Request, clock: Time)
    requires req.slots != [] && req.profile.duration >= 0 && Length(req.slots[0]) > 0
    ensures IsSearchOf(SearchFor(req, clock), req, EarliestStart(req, clock))
  {
  }

  lemma PanicsPastTheEnd(req: Request, clock: Time)
    requires req.slots != [] && req.profile.duration >= 0 && Length(req.slots[0]) > 0
    ensures SearchFor(req, clock).Panics() <==> ReadsPastTheEnd(req, EarliestStart(req, clock))
  {
    var s, now := SearchFor(req, clock), EarliestStart(req, clock);
    if ReadsPastTheEnd(req, now) {
      forall i: nat ensures !s.Overruns(i) {
      }
    }
    if s.Panics() {
      forall i: nat | i < |req.slots| && req.slots[i].till >= now
        ensures StartIn(req, now, i) <= now + req.maxDelayHours * 3_600_000_000_000
      {
        assert !s.Overruns(i);
      }
    }
  }

  lemma FirstValidIsLeft(slots: seq<PriceSlot>, now: Time)
    requires slots != []
    ensures IsFirstLeft(slots, now, FirstValid(slots, now))
  {
    if j :| 0 <= j < |slots| && slots[j].till >= now {
      assert CountEnded(slots, now) <= j;
    }
  }

  lemma AnswerMeetsRequest(r: OptimizationResult, req: Request, clock: Time, at: nat)
    requires req.slots != [] && req.profile.duration >= 0 && Length(req.slots[0]) > 0 && SortedByFrom(req.slots)
    requires IsAnswer(r, SearchFor(req, clock), req.profile, Length(req.slots[0]), at)
    ensures AnswersRequest(r, req, clock)
  {
    hide SearchFor, IsSearchOf, IsAnswer, AnswersWith, EarliestStart, FirstValid;
    var s, now := SearchFor(req, clock), EarliestStart(req, clock);
    SearchIsRequest(req, clock);
    SearchFields(req, clock);
    FirstValidIsLeft(req.slots, now);
    if exists i: nat :: s.Candidate(i) {
      PlanAnswers(r, req, s, now, at);
    } else {
      ImmediateAnswers(r, req, s, now, at);
    }
    assert AnswersWith(r, req, now, s.k, FirstValid(req.slots, now), at);
  }

  lemma SearchFields(req: Request, clock: Time)
    requires req.slots != [] && req.profile.duration >= 0 && Length(req.slots[0]) > 0
    ensures var s := SearchFor(req, clock); s.slots == req.slots && s.k <= |s.slots|
  {
  }

  lemma PlanAnswers(r: OptimizationResult, req: Request, s: Search, now: Time, at: nat)
    requires req.slots != [] && s.slots == req.slots && s.k <= |s.slots| && SortedByFrom(s.slots)
    requires IsSearchOf(s, req, now) && IsFirstLeft(req.slots, now, FirstValid(req.slots, now))
    requires (exists i: nat :: s.Candidate(i)) && IsAnswer(r, s, req.profile, Length(req.slots[0]), at)
    ensures AnswersWith(r, req, now, s.k, FirstValid(req.slots, now), at)
  {
    hide WeightedCost, EstimatedCost, StagePlan, FirstValid, FewestSlots, IsFirstLeft, ClampedStart, StartIn, SortedByFrom,
         Search.Candidate, CanStart;
    var j: nat :| s.Candidate(j);
    assert CanStart(req, now, s.k, j);
    InRangeOfSearch(s, at);
    hide IsCheapestStart, EarliestBest;
    CheapestOfSearch(req, s, now, Length(req.slots[0]), at);
  }

  lemma InRangeOfSearch(s: Search, i: nat)
    ensures s.Candidate(i) ==> i + s.k <= |s.slots| && i < |s.slots|
  {
  }

  lemma ImmediateAnswers(r: OptimizationResult, req: Request, s: Search, now: Time, at: nat)
    requires req.slots != [] && s.slots == req.slots && s.k <= |s.slots| && SortedByFrom(s.slots)
    requires IsSearchOf(s, req, now) && IsFirstLeft(req.slots, now, FirstValid(req.slots, now))
    requires !(exists i: nat :: s.Candidate(i)) && IsAnswer(r, s, req.profile, Length(req.slots[0]), at)
    ensures AnswersWith(r, req, now, s.k, FirstValid(req.slots, now), at)
  {
    hide WeightedCost, EstimatedCost, StagePlan, FewestSlots, IsFirstLeft, StartIn, SortedByFrom, Search.Candidate, CanStart,
         EarliestBest, IsPlanFor, IsCheapestStart;
    assert forall j: nat :: !CanStart(req, now, s.k, j);
  }

  lemma CheapestOfSearch(req: Request, s: Search, now: Time, slotDuration: Duration, i: nat)
    requires req.slots != [] && s.slots == req.slots && s.k <= |s.slots| && slotDuration == Length(req.slots[0])
    requires forall j: nat :: s.Candidate(j) <==> CanStart(req, now, s.k, j)
    requires EarliestBest(s, WindowCosts(s, req.profile, slotDuration), i)
    ensures IsCheapestStart(req, now, s.k, i)
  {
    hide WeightedCost;
    var costs := WindowCosts(s, req.profile, slotDuration);
    forall j: nat | CanStart(req, now, s.k, j) ensures costs[j] == CostFrom(req, j, s.k) {
      assert s.Candidate(j);
    }
  }

  /**
   * The slots needed and the deadline come from the request. There is no result for an empty slot list, which is
   * reported, and for a cycle of no length that no slot keeps from running past the last one.
   */
  method Optimize(req: Request, clock: Time) returns (result: OptimizationResult?)
    requires req.profile.duration >= 0 && (req.slots != [] ==> Length(req.slots[0]) > 0)
    ensures result == null <==> req.slots == [] || ReadsPastTheEnd(req, EarliestStart(req, clock))
    ensures result != null && SortedByFrom(req.slots) ==> AnswersRequest(result, req, clock)
    ensures result != null && SortedByFrom(req.slots) ==>
              exists at: nat :: IsAnswer(result, SearchFor(req, clock), req.profile, Length(req.slots[0]), at)
  {
    hide IsAnswer, AnswersRequest, SearchFor, ReadsPastTheEnd;
    if |req.slots| == 0 {
      return null;
    }
    var s := SearchFor(req, clock);
    PanicsPastTheEnd(req, clock);
    SearchFields(req, clock);
    result := BestOrImmediate(s, req.profile, Length(req.slots[0]));
    if result != null && SortedByFrom(req.slots) {
      ghost var at: nat :| IsAnswer(result, s, req.profile, Length(req.slots[0]), at);
      AnswerMeetsRequest(result, req, clock, at);
    }
  }

  lemma CandidatesAreReached(s: Search)
    ensures SortedByFrom(s.slots) ==> forall i: nat :: s.Candidate(i) <==> s.Reached(i)
  {
    if SortedByFrom(s.slots) {
      forall i: nat ensures s.Candidate(i) <==> s.Reached(i) {
        BreakLosesNothing(s, i);
      }
    }
  }
}
