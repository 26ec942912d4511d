/** Charging in the cheapest slots of a window (optimizer.go, the opportunistic strategy). */
module CheapestHours {
  import opened Options
  import opened Sums
  import opened PriceSlots
  import opened PriceIndexes

  datatype HoursRequest = HoursRequest(totalDuration: Duration, windowSize: Duration)

  datatype HoursError = NonPositiveDuration | NonPositiveWindow | DurationExceedsWindow | NoSlotsInWindow

  datatype HoursResult =
    | Decision(chargeNow: bool, cheapestSlots: seq<PriceSlot>, averagePrice: real, currentPrice: real,
               savingsPercent: real, totalDuration: Duration)
    | Failed(error: HoursError)

  // ---- getWindowSlots ----

  /** The slot around now, and slots starting later but before the window closes. */
  predicate InWindow(s: PriceSlot, now: Time, windowSize: Duration) {
    s.Contains(now) || now < s.from < now + windowSize
  }

  function WindowOf(slots: seq<PriceSlot>, now: Time, windowSize: Duration): seq<PriceSlot> {
    if slots == [] then []
    else
      var s := slots[|slots| - 1];
      WindowOf(slots[..|slots| - 1], now, windowSize) + if InWindow(s, now, windowSize) then [s] else []
  }

  method GetWindowSlots(slots: seq<PriceSlot>, now: Time, windowSize: Duration) returns (window: seq<PriceSlot>)
    ensures window == WindowOf(slots, now, windowSize)
  {
    window := [];
    for i := 0 to |slots|
      invariant window == WindowOf(slots[..i], now, windowSize)
    {
      assert slots[..i + 1][..i] == slots[..i];
      var s := slots[i];
      if (s.from < now || s.from == now) && s.till > now {
        window := window + [s];
      } else if s.from > now && s.from < now + windowSize {
        window := window + [s];
      }
    }
    assert slots[..|slots|] == slots;
  }

  /** On offer at now: around it, or starting later but before the window closes. */
  ghost predicate OnOffer(s: PriceSlot, now: Time, windowSize: Duration) {
    (s.from <= now && now < s.till) || (now < s.from && s.from < now + windowSize)
  }

  /** The window holds exactly the slots on offer, in their order: those at these positions. */
  ghost predicate IsOffer(window: seq<PriceSlot>, slots: seq<PriceSlot>, now: Time, windowSize: Duration, at: seq<nat>) {
    && |at| == |window|
    && (forall k :: 0 <= k < |at| ==> at[k] < |slots| && window[k] == slots[at[k]])
    && (forall j, k :: 0 <= j < k < |at| ==> at[j] < at[k])
    && (forall i: nat :: i < |slots| ==> (i in at <==> OnOffer(slots[i], now, windowSize)))
  }

  lemma {:induction false} WindowIsOffer(slots: seq<PriceSlot>, now: Time, windowSize: Duration) returns (at: seq<nat>)
    ensures IsOffer(WindowOf(slots, now, windowSize), slots, now, windowSize, at)
  {
    if slots == [] {
      at := [];
    } else {
      var n := |slots| - 1;
      at := WindowIsOffer(slots[..n], now, windowSize);
      if InWindow(slots[n], now, windowSize) {
        OfferGrows(WindowOf(slots[..n], now, windowSize), slots, now, windowSize, at);
        at := at + [n];
      } else {
        OfferStays(WindowOf(slots[..n], now, windowSize), slots, now, windowSize, at);
      }
    }
  }

  lemma OfferGrows(window: seq<PriceSlot>, slots: seq<PriceSlot>, now: Time, windowSize: Duration, at: seq<nat>)
    requires slots != [] && IsOffer(window, slots[..|slots| - 1], now, windowSize, at)
    requires OnOffer(slots[|slots| - 1], now, windowSize)
    ensures IsOffer(window + [slots[|slots| - 1]], slots, now, windowSize, at + [|slots| - 1])
  {
    hide OnOffer;
    var n, at' := |slots| - 1, at + [|slots| - 1];
    forall i: nat | i < |slots| ensures i in at' <==> OnOffer(slots[i], now, windowSize) {
      assert i in at' <==> i in at || i == n;
      assert i in at ==> i < n;
      assert i < n ==> slots[..n][i] == slots[i];
    }
  }

  lemma OfferStays(window: seq<PriceSlot>, slots: seq<PriceSlot>, now: Time, windowSize: Duration, at: seq<nat>)
    requires slots != [] && IsOffer(window, slots[..|slots| - 1], now, windowSize, at)
    requires !OnOffer(slots[|slots| - 1], now, windowSize)
    ensures IsOffer(window, slots, now, windowSize, at)
  {
    hide OnOffer;
    var n := |slots| - 1;
    forall i: nat | i < |slots| ensures i in at <==> OnOffer(slots[i], now, windowSize) {
      assert i in at ==> i < n;
      assert i < n ==> slots[..n][i] == slots[i];
    }
  }

  /** So it holds each slot on offer as often as the list does, and no other. */
  lemma {:induction false} WindowCounts(slots: seq<PriceSlot>, now: Time, windowSize: Duration, s: PriceSlot)
    ensures multiset(WindowOf(slots, now, windowSize))[s] == if OnOffer(s, now, windowSize) then multiset(slots)[s] else 0
  {
    if slots != [] {
      WindowCounts(slots[..|slots| - 1], now, windowSize, s);
      assert slots == slots[..|slots| - 1] + [slots[|slots| - 1]];
    }
  }

  lemma WindowMembers(slots: seq<PriceSlot>, now: Time, windowSize: Duration)
    ensures forall s :: s in WindowOf(slots, now, windowSize) <==> s in slots && OnOffer(s, now, windowSize)
  {
    forall s ensures s in WindowOf(slots, now, windowSize) <==> s in slots && OnOffer(s, now, windowSize) {
      WindowCounts(slots, now, windowSize, s);
      assert s in WindowOf(slots, now, windowSize) <==> s in multiset(WindowOf(slots, now, windowSize));
      assert s in slots <==> s in multiset(slots);
    }
  }

  /** Some of the slots, all on offer. */
  ghost predicate OfferedPart(t: seq<PriceSlot>, slots: seq<PriceSlot>, now: Time, windowSize: Duration) {
    multiset(t) <= multiset(slots) && forall x :: x in t ==> OnOffer(x, now, windowSize)
  }

  lemma PartOfWindow(t: seq<PriceSlot>, slots: seq<PriceSlot>, now: Time, windowSize: Duration)
    ensures multiset(t) <= multiset(WindowOf(slots, now, windowSize)) <==> OfferedPart(t, slots, now, windowSize)
  {
    forall s
      ensures multiset(WindowOf(slots, now, windowSize))[s] == if OnOffer(s, now, windowSize) then multiset(slots)[s] else 0
    {
      WindowCounts(slots, now, windowSize, s);
    }
    hide OnOffer;
    if multiset(t) <= multiset(WindowOf(slots, now, windowSize)) {
      forall x | x in t ensures OnOffer(x, now, windowSize) {
        assert x in multiset(t);
      }
    }
    if OfferedPart(t, slots, now, windowSize) {
      forall x | x in multiset(t) ensures multiset(t)[x] <= multiset(WindowOf(slots, now, windowSize))[x] {
        assert x in t;
      }
    }
  }

  // ---- selectCheapestSlotsByDuration ----

  /** The shortest non-empty prefix of the slots, in some order by price, that lasts the target, or all of them. */
  ghost predicate IsGreedy(selected: seq<PriceSlot>, sorted: seq<PriceSlot>, window: seq<PriceSlot>, target: Duration) {
    && SortedBy(sorted, Price) && multiset(sorted) == multiset(window)
    && selected <= sorted && (window != [] ==> selected != [])
    && (forall k :: 0 < k < |selected| ==> Sum(sorted[..k], LengthReal) < target as real)
    && (Sum(selected, LengthReal) >= target as real || selected == sorted)
  }

  ghost predicate IsCheapestSelection(selected: seq<PriceSlot>, window: seq<PriceSlot>, target: Duration) {
    exists sorted :: IsGreedy(selected, sorted, window, target)
  }

  method SelectCheapestSlotsByDuration(window: seq<PriceSlot>, target: Duration)
    returns (selected: seq<PriceSlot>, totalDuration: Duration)
    ensures IsCheapestSelection(selected, window, target)
    ensures totalDuration as real == Sum(selected, LengthReal)
  {
    hide Sum;
    var sorted := Sort(window, Price);
    SumPermutation(sorted, window, Price);
    NoSlots();
    selected, totalDuration := [], 0;
    var i := 0;
    while i < |sorted|
      invariant 0 <= i <= |sorted| && selected == sorted[..i]
      invariant totalDuration as real == Sum(selected, LengthReal)
      invariant forall k :: 0 < k <= i ==> Sum(sorted[..k], LengthReal) < target as real
    {
      OneMoreSlot(sorted, i, totalDuration);
      selected := selected + [sorted[i]];
      totalDuration := totalDuration + Length(sorted[i]);
      i := i + 1;
      if totalDuration >= target {
        break;
      }
    }
    assert IsGreedy(selected, sorted, window, target);
  }

  lemma NoSlots()
    ensures Sum([], LengthReal) == 0.0
  {
  }

  lemma OneMoreSlot(sorted: seq<PriceSlot>, i: nat, total: Duration)
    requires i < |sorted| && total as real == Sum(sorted[..i], LengthReal)
    ensures sorted[..i] + [sorted[i]] == sorted[..i + 1]
    ensures (total + Length(sorted[i])) as real == Sum(sorted[..i + 1], LengthReal)
  {
    SumPrefix(sorted, i + 1, LengthReal);
  }

  /** Whatever the sort does with ties, no other choice of as many slots of the window is cheaper. */
  lemma SelectionIsCheapest(selected: seq<PriceSlot>, window: seq<PriceSlot>, target: Duration, t: seq<PriceSlot>)
    requires IsCheapestSelection(selected, window, target)
    requires multiset(t) <= multiset(window) && |t| == |selected|
    ensures multiset(selected) <= multiset(window)
    ensures Sum(selected, Price) <= Sum(t, Price)
  {
    var sorted :| IsGreedy(selected, sorted, window, target);
    assert sorted == selected + sorted[|selected|..] && selected == sorted[..|selected|];
    LeastTotal(sorted, t, Price);
  }

  lemma {:induction false} SameTotalLength(s: seq<PriceSlot>, t: seq<PriceSlot>, d: Duration)
    requires |s| == |t| && forall x :: x in s || x in t ==> Length(x) == d
    ensures Sum(s, LengthReal) == Sum(t, LengthReal)
  {
    if s != [] {
      SameTotalLength(s[..|s| - 1], t[..|t| - 1], d);
    }
  }

  /** With slots of one length, the selection is as few slots as any part of the window that lasts the target. */
  lemma SelectionIsShortest(selected: seq<PriceSlot>, window: seq<PriceSlot>, target: Duration, d: Duration,
                            t: seq<PriceSlot>)
    requires IsCheapestSelection(selected, window, target) && d > 0
    requires forall x :: x in window ==> Length(x) == d
    requires multiset(t) <= multiset(window) && t != [] && Sum(t, LengthReal) >= target as real
    ensures Sum(selected, LengthReal) >= target as real && |selected| <= |t|
  {
    var sorted :| IsGreedy(selected, sorted, window, target);
    forall x | x in t || x in sorted ensures Length(x) == d && LengthReal(x) >= 0.0 {
      assert x in multiset(t) || x in multiset(sorted);
      assert x in multiset(window);
    }
    WholeOrLess(t, sorted, LengthReal);
    SumPart(t, sorted, LengthReal);
    if |t| < |selected| {
      SameTotalLength(sorted[..|t|], t, d);
      assert false;
    }
  }

  /**
   * With slots of one length and no negative price, the selection is the cheapest way to reach the target at
   * all: any part of the window lasting the target costs at least as much.
   */
  lemma SelectionReachesTargetCheapest(selected: seq<PriceSlot>, window: seq<PriceSlot>, target: Duration, d: Duration,
                                       t: seq<PriceSlot>)
    requires IsCheapestSelection(selected, window, target) && d > 0
    requires forall x :: x in window ==> Length(x) == d && x.price >= 0.0
    requires multiset(t) <= multiset(window) && t != [] && Sum(t, LengthReal) >= target as real
    ensures Sum(selected, LengthReal) >= target as real && Sum(selected, Price) <= Sum(t, Price)
  {
    SelectionIsShortest(selected, window, target, d, t);
    var k := |selected|;
    assert t == t[..k] + t[k..];
    SelectionIsCheapest(selected, window, target, t[..k]);
    forall x | x in t ensures Price(x) >= 0.0 {
      assert x in multiset(t) && x in multiset(window);
    }
    SumPart(t[..k], t, Price);
  }

  // ---- The decision ----

  predicate CoversNow(slots: seq<PriceSlot>, now: Time) {
    exists i :: 0 <= i < |slots| && slots[i].Contains(now)
  }

  method IsCurrentSlotInSelection(slots: seq<PriceSlot>, now: Time) returns (found: bool)
    ensures found == CoversNow(slots, now)
  {
    for i := 0 to |slots|
      invariant forall j :: 0 <= j < i ==> !slots[j].Contains(now)
    {
      if slots[i].from <= now && slots[i].till > now {
        return true;
      }
    }
    found := false;
  }

  lemma SelectionIsFromSlots(slots: seq<PriceSlot>, now: Time, windowSize: Duration, target: Duration,
                             selected: seq<PriceSlot>, s: PriceSlot)
    requires IsCheapestSelection(selected, WindowOf(slots, now, windowSize), target) && s in selected
    ensures s in slots
  {
    WindowMembers(slots, now, windowSize);
    var sorted :| IsGreedy(selected, sorted, WindowOf(slots, now, windowSize), target);
    assert s in multiset(sorted);
    assert s in multiset(WindowOf(slots, now, windowSize));
  }

  lemma SelectionHasCurrent(slots: seq<PriceSlot>, i: nat, now: Time, windowSize: Duration, target: Duration,
                            selected: seq<PriceSlot>)
    requires Timeline(slots) && i < |slots| && slots[i].Contains(now)
    requires IsCheapestSelection(selected, WindowOf(slots, now, windowSize), target)
    ensures slots[i] in WindowOf(slots, now, windowSize)
    ensures CoversNow(selected, now) <==> slots[i] in selected
  {
    WindowMembers(slots, now, windowSize);
    if CoversNow(selected, now) {
      var j :| 0 <= j < |selected| && selected[j].Contains(now);
      SelectionIsFromSlots(slots, now, windowSize, target, selected, selected[j]);
      var k :| 0 <= k < |slots| && slots[k] == selected[j];
      TimelineIsUnambiguous(slots, i, k, now);
    }
  }

  lemma CheaperOnesComeFirst(sorted: seq<PriceSlot>, i: nat, t: seq<PriceSlot>)
    requires SortedBy(sorted, Price) && i < |sorted| && multiset(t) <= multiset(sorted)
    requires forall x :: x in t ==> x.price < sorted[i].price
    ensures multiset(t) <= multiset(sorted[..i])
  {
    assert sorted == sorted[..i] + sorted[i..];
    forall j | i <= j < |sorted| ensures sorted[j].price >= sorted[i].price {
      assert Price(sorted[i]) <= Price(sorted[j]);
    }
    forall x | x in multiset(t) ensures multiset(t)[x] <= multiset(sorted[..i])[x] {
      assert x in t && x !in sorted[i..];
      assert x !in multiset(sorted[i..]);
    }
  }

  /** Charging now means that the slots on offer strictly cheaper than the current one do not last the target. */
  lemma ChargeNowIsNeeded(slots: seq<PriceSlot>, i: nat, now: Time, windowSize: Duration, target: Duration,
                          selected: seq<PriceSlot>, t: seq<PriceSlot>)
    requires Timeline(slots) && i < |slots| && slots[i].Contains(now) && target > 0
    requires IsCheapestSelection(selected, WindowOf(slots, now, windowSize), target) && CoversNow(selected, now)
    requires OfferedPart(t, slots, now, windowSize) && forall x :: x in t ==> x.price < slots[i].price
    ensures Sum(t, LengthReal) < target as real
  {
    PartOfWindow(t, slots, now, windowSize);
    var window := WindowOf(slots, now, windowSize);
    SelectionHasCurrent(slots, i, now, windowSize, target, selected);
    var sorted :| IsGreedy(selected, sorted, window, target);
    var j :| 0 <= j < |selected| && selected[j] == slots[i];
    CheaperOnesComeFirst(sorted, j, t);
    WindowMembers(slots, now, windowSize);
    forall x | x in sorted[..j] ensures LengthReal(x) >= 0.0 {
      assert x in sorted && x in multiset(window);
      assert x in slots;
    }
    SumPart(t, sorted[..j], LengthReal);
  }

  /** Not charging now means that other slots on offer, none dearer than the current one, do last the target. */
  lemma WaitingIsEnough(slots: seq<PriceSlot>, i: nat, now: Time, windowSize: Duration, target: Duration,
                        selected: seq<PriceSlot>)
    requires Timeline(slots) && i < |slots| && slots[i].Contains(now)
    requires IsCheapestSelection(selected, WindowOf(slots, now, windowSize), target) && !CoversNow(selected, now)
    ensures OfferedPart(selected, slots, now, windowSize) && slots[i] !in selected
    ensures forall x :: x in selected ==> x.price <= slots[i].price
    ensures Sum(selected, LengthReal) >= target as real
  {
    var window := WindowOf(slots, now, windowSize);
    SelectionHasCurrent(slots, i, now, windowSize, target, selected);
    var sorted :| IsGreedy(selected, sorted, window, target);
    assert sorted == selected + sorted[|selected|..];
    PartOfWindow(selected, slots, now, windowSize);
    assert slots[i] in multiset(sorted);
    var j :| 0 <= j < |sorted| && sorted[j] == slots[i];
    forall x | x in selected ensures x.price <= slots[i].price {
      var k :| 0 <= k < |selected| && selected[k] == x;
      assert Price(sorted[k]) <= Price(sorted[j]);
    }
  }

  /** The price SlotAt would find, or 0. */
  function PriceAt(slots: seq<PriceSlot>, now: Time): real {
    if FirstContaining(slots, now).Some? then FirstContaining(slots, now).value.price else 0.0
  }

  method GetCurrentPrice(slots: seq<PriceSlot>, now: Time) returns (price: real)
    ensures price == PriceAt(slots, now)
  {
    for i := 0 to |slots|
      invariant FirstContaining(slots, now) == FirstContaining(slots[i..], now)
    {
      if slots[i].from <= now && slots[i].till > now {
        return slots[i].price;
      }
    }
    price := 0.0;
  }

  method CalculateAveragePrice(slots: seq<PriceSlot>) returns (average: real)
    requires slots != []
    ensures average == MeanPrice(slots)
  {
    var total := 0.0;
    for i := 0 to |slots|
      invariant total == Sum(slots[..i], Price)
    {
      SumPrefix(slots, i + 1, Price);
      total := total + slots[i].price;
    }
    assert slots[..|slots|] == slots;
    average := total / |slots| as real;
  }

  function Validate(req: HoursRequest): Option<HoursError> {
    if req.totalDuration <= 0 then Some(NonPositiveDuration)
    else if req.windowSize <= 0 then Some(NonPositiveWindow)
    else if req.totalDuration > req.windowSize then Some(DurationExceedsWindow)
    else None
  }

  /** Not to charge now, in slot i, leaves enough on offer without it at no higher price; to charge is then needed. */
  ghost predicate DecidesRightly(r: HoursResult, req: HoursRequest, slots: seq<PriceSlot>, now: Time, i: nat)
    requires r.Decision? && i < |slots|
  {
    && r.currentPrice == slots[i].price
    && (r.chargeNow ==>
          forall t ::
            OfferedPart(t, slots, now, req.windowSize) && (forall x: PriceSlot :: x in t ==> x.price < slots[i].price) ==>
              Sum(t, LengthReal) < req.totalDuration as real)
    && (!r.chargeNow ==>
          && slots[i] !in r.cheapestSlots && (forall x :: x in r.cheapestSlots ==> x.price <= slots[i].price)
          && Sum(r.cheapestSlots, LengthReal) >= req.totalDuration as real)
  }

  /** The selection is on offer, and no other choice of as many slots on offer is cheaper. */
  ghost predicate SelectsCheapest(r: HoursResult, req: HoursRequest, slots: seq<PriceSlot>, now: Time)
    requires r.Decision?
  {
    && OfferedPart(r.cheapestSlots, slots, now, req.windowSize)
    && (forall t :: OfferedPart(t, slots, now, req.windowSize) && |t| == |r.cheapestSlots| ==>
                      Sum(r.cheapestSlots, Price) <= Sum(t, Price))
    && r.totalDuration as real == Sum(r.cheapestSlots, LengthReal)
  }

  /** The average is over the slots on offer, and the saving is against it. */
  ghost predicate ReportsAverage(r: HoursResult, req: HoursRequest, slots: seq<PriceSlot>, now: Time)
    requires r.Decision?
  {
    && (exists window, at :: IsOffer(window, slots, now, req.windowSize, at) && window != []
                             && r.averagePrice == Sum(window, Price) / |window| as real)
    && r.savingsPercent ==
       (if r.averagePrice > 0.0 then (r.averagePrice - r.currentPrice) / r.averagePrice * 100.0 else 0.0)
  }

  lemma DecisionIsRight(r: HoursResult, req: HoursRequest, slots: seq<PriceSlot>, now: Time, i: nat)
    requires Timeline(slots) && i < |slots| && slots[i].from <= now < slots[i].till && req.totalDuration > 0
    requires r.Decision? && r.currentPrice == PriceAt(slots, now) && r.chargeNow == CoversNow(r.cheapestSlots, now)
    requires IsCheapestSelection(r.cheapestSlots, WindowOf(slots, now, req.windowSize), req.totalDuration)
    ensures DecidesRightly(r, req, slots, now, i)
  {
    SlotAtIsTheSlotAround(slots, i, now);
    hide OfferedPart, Timeline, IsCheapestSelection, CoversNow;
    if r.chargeNow {
      forall t | OfferedPart(t, slots, now, req.windowSize) && forall x: PriceSlot :: x in t ==> x.price < slots[i].price
        ensures Sum(t, LengthReal) < req.totalDuration as real
      {
        ChargeNowIsNeeded(slots, i, now, req.windowSize, req.totalDuration, r.cheapestSlots, t);
      }
    } else {
      WaitingIsEnough(slots, i, now, req.windowSize, req.totalDuration, r.cheapestSlots);
    }
  }

  lemma NoSlotAround(r: HoursResult, req: HoursRequest, slots: seq<PriceSlot>, now: Time)
    requires r.Decision? && r.currentPrice == PriceAt(slots, now) && r.chargeNow == CoversNow(r.cheapestSlots, now)
    requires IsCheapestSelection(r.cheapestSlots, WindowOf(slots, now, req.windowSize), req.totalDuration)
    requires forall s :: s in slots ==> !(s.from <= now < s.till)
    ensures !r.chargeNow && r.currentPrice == 0.0
  {
    FirstContainingFound(slots, now);
    if r.chargeNow {
      var j :| 0 <= j < |r.cheapestSlots| && r.cheapestSlots[j].Contains(now);
      SelectionIsFromSlots(slots, now, req.windowSize, req.totalDuration, r.cheapestSlots, r.cheapestSlots[j]);
    }
  }

  lemma SelectionIsRight(r: HoursResult, req: HoursRequest, slots: seq<PriceSlot>, now: Time)
    requires r.Decision? && r.totalDuration as real == Sum(r.cheapestSlots, LengthReal)
    requires IsCheapestSelection(r.cheapestSlots, WindowOf(slots, now, req.windowSize), req.totalDuration)
    ensures SelectsCheapest(r, req, slots, now)
  {
    var window := WindowOf(slots, now, req.windowSize);
    hide OfferedPart, IsCheapestSelection;
    forall t | |t| == |r.cheapestSlots| && OfferedPart(t, slots, now, req.windowSize)
      ensures Sum(r.cheapestSlots, Price) <= Sum(t, Price)
    {
      PartOfWindow(t, slots, now, req.windowSize);
      SelectionIsCheapest(r.cheapestSlots, window, req.totalDuration, t);
    }
    SelectionIsPart(r.cheapestSlots, window, req.totalDuration);
    PartOfWindow(r.cheapestSlots, slots, now, req.windowSize);
  }

  lemma SelectionIsPart(selected: seq<PriceSlot>, window: seq<PriceSlot>, target: Duration)
    requires IsCheapestSelection(selected, window, target)
    ensures multiset(selected) <= multiset(window)
  {
    var sorted :| IsGreedy(selected, sorted, window, target);
    assert sorted == selected + sorted[|selected|..];
  }

  lemma NothingOnOffer(slots: seq<PriceSlot>, now: Time, windowSize: Duration)
    ensures WindowOf(slots, now, windowSize) == [] <==> forall s :: s in slots ==> !OnOffer(s, now, windowSize)
  {
    WindowMembers(slots, now, windowSize);
    if WindowOf(slots, now, windowSize) != [] {
      assert WindowOf(slots, now, windowSize)[0] in slots;
    }
  }

  lemma AverageIsRight(r: HoursResult, req: HoursRequest, slots: seq<PriceSlot>, now: Time)
    requires r.Decision? && WindowOf(slots, now, req.windowSize) != []
    requires r.averagePrice == MeanPrice(WindowOf(slots, now, req.windowSize))
    requires r.averagePrice > 0.0 ==> r.savingsPercent == (r.averagePrice - r.currentPrice) / r.averagePrice * 100.0
    requires r.averagePrice <= 0.0 ==> r.savingsPercent == 0.0
    ensures ReportsAverage(r, req, slots, now)
  {
    var at := WindowIsOffer(slots, now, req.windowSize);
  }

  /**
   * The request is checked first. Then nothing on offer is an error, and otherwise there is a decision: on a timeline
   * it is to charge only if the slots cheaper than the current one do not last long enough, and to wait only if others
   * no dearer do.
   */
  method OptimizeOpportunistic(req: HoursRequest, slots: seq<PriceSlot>, now: Time) returns (r: HoursResult)
    ensures req.totalDuration <= 0 ==> r == Failed(NonPositiveDuration)
    ensures req.totalDuration > 0 && req.windowSize <= 0 ==> r == Failed(NonPositiveWindow)
    ensures 0 < req.windowSize < req.totalDuration ==> r == Failed(DurationExceedsWindow)
    ensures 0 < req.totalDuration <= req.windowSize ==>
              if forall s :: s in slots ==> !OnOffer(s, now, req.windowSize) then r == Failed(NoSlotsInWindow)
              else r.Decision?
    ensures r.Decision? ==> SelectsCheapest(r, req, slots, now) && ReportsAverage(r, req, slots, now)
    ensures r.Decision? && Timeline(slots) ==>
              forall i: nat :: i < |slots| && slots[i].from <= now < slots[i].till ==> DecidesRightly(r, req, slots, now, i)
    ensures r.Decision? && (forall s :: s in slots ==> !(s.from <= now < s.till)) ==> !r.chargeNow && r.currentPrice == 0.0
    ensures r.Decision? ==> IsCheapestSelection(r.cheapestSlots, WindowOf(slots, now, req.windowSize), req.totalDuration)
  {
    hide OnOffer, SelectsCheapest, ReportsAverage, DecidesRightly, IsCheapestSelection, CoversNow, WindowOf, PriceAt,
         MeanPrice, Timeline, Sum;
    NothingOnOffer(slots, now, req.windowSize);
    var invalid := Validate(req);
    if invalid.Some? {
      return Failed(invalid.value);
    }
    var currentPrice := GetCurrentPrice(slots, now);
    var window := GetWindowSlots(slots, now, req.windowSize);
    if |window| == 0 {
      return Failed(NoSlotsInWindow);
    }
    var cheapestSlots, totalDuration := SelectCheapestSlotsByDuration(window, req.totalDuration);
    var currentSlotIsCheap := IsCurrentSlotInSelection(cheapestSlots, now);
    var averagePrice := CalculateAveragePrice(window);
    var savingsPercent := 0.0;
    if averagePrice > 0.0 {
      savingsPercent := (averagePrice - currentPrice) / averagePrice * 100.0;
    }
    r := Decision(currentSlotIsCheap, cheapestSlots, averagePrice, currentPrice, savingsPercent, totalDuration);
    SelectionIsRight(r, req, slots, now);
    AverageIsRight(r, req, slots, now);
    if Timeline(slots) {
      forall i: nat | i < |slots| && slots[i].from <= now < slots[i].till ensures DecidesRightly(r, req, slots, now, i) {
        DecisionIsRight(r, req, slots, now, i);
      }
    }
    if forall s :: s in slots ==> !(s.from <= now < s.till) {
      NoSlotAround(r, req, slots, now);
    }
  }
}
