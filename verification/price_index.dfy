/** The price index (index.go): queries over a fixed list of slots with thresholds. */
module PriceIndexes {
  import opened Options
  import opened PriceSlots
  import opened PriceLevels

  datatype PriceIndex = PriceIndex(slots: seq<PriceSlot>, median: real, cheap: real, expensive: real) {
    function Level(s: PriceSlot): PriceLevel {
      DeterminePriceLevel(s.price, cheap, expensive)
    }

    predicate IsExtreme(s: PriceSlot, spikeMultiplier: real) {
      s.price < 0.0 || s.price > median * spikeMultiplier
    }
  }

  method NewPriceIndex(slots: seq<PriceSlot>) returns (idx: PriceIndex)
    ensures idx.slots == slots
    ensures slots != [] ==> idx.cheap <= idx.median <= idx.expensive
    ensures slots != [] ==> IsMedian(idx.median, Prices(slots))
    ensures slots != [] ==> IsRanked(idx.cheap, Prices(slots), RoundedShare(|slots|, 0.35))
    ensures slots != [] ==> IsRanked(idx.expensive, Prices(slots), RoundedShare(|slots|, 0.7))
    ensures slots == [] ==> idx == PriceIndex([], 0.0, 0.0, 0.0)
  {
    if |slots| == 0 {
      return PriceIndex([], 0.0, 0.0, 0.0);
    }
    var prices := [];
    for i := 0 to |slots|
      invariant prices == Prices(slots)[..i]
    {
      prices := prices + [slots[i].price];
    }
    assert prices == Prices(slots);
    var cheap, expensive := ComputeThresholdsFromPrices(prices, CHEAP_PERCENTILE, EXPENSIVE_PERCENTILE);
    var median := ComputeMedian(prices);
    ThresholdsBracketMedian(prices, cheap, median, expensive);
    PercentileIsShare(|prices|, 0.35);
    PercentileIsShare(|prices|, 0.7);
    idx := PriceIndex(slots, median, cheap, expensive);
  }

  function Prices(slots: seq<PriceSlot>): (prices: seq<real>)
    ensures |prices| == |slots|
  {
    seq(|slots|, i requires 0 <= i < |slots| => slots[i].price)
  }

  // ---- SlotAt ----

  method SlotAt(idx: PriceIndex, t: Time) returns (r: Option<PriceSlot>)
    ensures r == FirstContaining(idx.slots, t)
  {
    for i := 0 to |idx.slots|
      invariant FirstContaining(idx.slots, t) == FirstContaining(idx.slots[i..], t)
    {
      if idx.slots[i].Contains(t) {
        return Some(idx.slots[i]);
      }
    }
    r := None;
  }

  function FirstContaining(slots: seq<PriceSlot>, t: Time): Option<PriceSlot> {
    if slots == [] then None
    else if slots[0].Contains(t) then Some(slots[0])
    else FirstContaining(slots[1..], t)
  }

  /** Slot i is the first around t. */
  ghost predicate IsFirstAround(slots: seq<PriceSlot>, t: Time, i: nat) {
    i < |slots| && slots[i].from <= t < slots[i].till && forall j :: 0 <= j < i ==> !(slots[j].from <= t < slots[j].till)
  }

  /** SlotAt answers with the first slot around t, and with none exactly when there is none. */
  lemma {:induction false} FirstContainingFound(slots: seq<PriceSlot>, t: Time)
    ensures FirstContaining(slots, t).Some? ==>
              exists i: nat :: IsFirstAround(slots, t, i) && FirstContaining(slots, t).value == slots[i]
    ensures FirstContaining(slots, t).None? ==> forall i :: 0 <= i < |slots| ==> !(slots[i].from <= t < slots[i].till)
  {
    if slots != [] && slots[0].Contains(t) {
      assert IsFirstAround(slots, t, 0);
    } else if slots != [] {
      FirstContainingFound(slots[1..], t);
      assert forall i :: 1 <= i < |slots| ==> slots[i] == slots[1..][i - 1];
      if FirstContaining(slots[1..], t).Some? {
        var i: nat :| IsFirstAround(slots[1..], t, i) && FirstContaining(slots[1..], t).value == slots[1..][i];
        assert forall j :: 0 < j < i + 1 ==> slots[j] == slots[1..][j - 1];
        assert IsFirstAround(slots, t, i + 1);
      }
    }
  }

  /** On a timeline SlotAt answers with the one slot around t. */
  lemma SlotAtIsTheSlotAround(slots: seq<PriceSlot>, i: nat, t: Time)
    requires Timeline(slots) && i < |slots| && slots[i].Contains(t)
    ensures FirstContaining(slots, t) == Some(slots[i])
  {
    FirstContainingFound(slots, t);
  }

  // ---- slotsInRange ----

  /** Slots ending after from, until the first of those that starts at or after the deadline. */
  function InRange(slots: seq<PriceSlot>, from: Time, deadline: Time): seq<PriceSlot> {
    if slots == [] then []
    else if slots[0].till <= from then InRange(slots[1..], from, deadline)
    else if slots[0].from >= deadline then []
    else [slots[0]] + InRange(slots[1..], from, deadline)
  }

  method SlotsInRange(slots: seq<PriceSlot>, from: Time, deadline: Time) returns (result: seq<PriceSlot>)
    ensures result == InRange(slots, from, deadline)
  {
    result := [];
    for i := 0 to |slots|
      invariant InRange(slots, from, deadline) == result + InRange(slots[i..], from, deadline)
    {
      assert slots[i..][1..] == slots[i + 1..];
      if slots[i].till <= from {
        continue;
      }
      if slots[i].from >= deadline {
        break;
      }
      result := result + [slots[i]];
    }
  }

  /** On a timeline the range is the block of consecutive slots that overlap [from, deadline). */
  lemma {:induction false} RangeIsBlock(slots: seq<PriceSlot>, from: Time, deadline: Time) returns (a: nat, b: nat)
    requires Timeline(slots)
    ensures a <= b <= |slots| && InRange(slots, from, deadline) == slots[a..b]
    ensures forall i :: 0 <= i < |slots| ==> (a <= i < b <==> slots[i].till > from && slots[i].from < deadline)
  {
    if slots == [] {
      a, b := 0, 0;
    } else if slots[0].till <= from {
      a, b := RangeIsBlock(slots[1..], from, deadline);
      a, b := a + 1, b + 1;
      assert slots[1..][a - 1..b - 1] == slots[a..b];
      forall i | 1 <= i < |slots| ensures slots[i] == slots[1..][i - 1] {
      }
    } else {
      forall i | 0 <= i < |slots| ensures slots[i].till > from {
        assert i > 0 ==> slots[0].till <= slots[i].from;
      }
      RangeStartsAtHead(slots, from, deadline);
      a, b := 0, |InRange(slots, from, deadline)|;
    }
  }

  /** Once every slot ends after from, the range is a prefix. */
  lemma {:induction false} RangeStartsAtHead(slots: seq<PriceSlot>, from: Time, deadline: Time)
    requires Timeline(slots) && forall i :: 0 <= i < |slots| ==> slots[i].till > from
    ensures InRange(slots, from, deadline) <= slots
    ensures forall i :: 0 <= i < |slots| ==> (i < |InRange(slots, from, deadline)| <==> slots[i].from < deadline)
  {
    if slots != [] && slots[0].from < deadline {
      RangeStartsAtHead(slots[1..], from, deadline);
      forall i | 1 <= i < |slots| ensures slots[i] == slots[1..][i - 1] {
      }
    } else if slots != [] {
      forall i | 0 < i < |slots| ensures slots[i].from >= deadline {
        assert slots[0].till <= slots[i].from;
      }
    }
  }
}
