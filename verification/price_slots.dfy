/** Price slots and the shapes a list of them can have. Times are nanoseconds. */
module PriceSlots {
  import opened Sums

  type Time = int
  type Duration = int

  const SECOND: Duration := 1_000_000_000
  const MINUTE: Duration := 60 * SECOND
  const HOUR: Duration := 60 * MINUTE
  const DAY: Duration := 24 * HOUR

  datatype PriceSlot = PriceSlot(from: Time, till: Time, price: real) {
    /** From <= t < Till, the test of SlotAt and of isCurrentHourSlot. */
    predicate Contains(t: Time) {
      from <= t < till
    }
  }

  function Price(s: PriceSlot): real {
    s.price
  }

  function Length(s: PriceSlot): Duration {
    s.till - s.from
  }

  function LengthReal(s: PriceSlot): real {
    Length(s) as real
  }

  /** The mean price, 0 for no slots. */
  function MeanPrice(slots: seq<PriceSlot>): real {
    if slots == [] then 0.0 else Sum(slots, Price) / |slots| as real
  }

  function TotalLength(slots: seq<PriceSlot>): Duration {
    if slots == [] then 0 else TotalLength(slots[..|slots| - 1]) + Length(slots[|slots| - 1])
  }

  /** The same slots at other prices. */
  function Repriced(c: seq<PriceSlot>, prices: seq<real>): (r: seq<PriceSlot>)
    requires |prices| == |c|
    ensures |r| == |c|
    ensures forall i :: 0 <= i < |c| ==> r[i] == PriceSlot(c[i].from, c[i].till, prices[i])
  {
    seq(|c|, i requires 0 <= i < |c| => PriceSlot(c[i].from, c[i].till, prices[i]))
  }

  /** Sorted by start; slots may overlap. */
  ghost predicate SortedByFrom(slots: seq<PriceSlot>) {
    forall i, j :: 0 <= i < j < |slots| ==> slots[i].from <= slots[j].from
  }

  /** Sorted, disjoint, each of positive length; gaps are allowed. */
  ghost predicate Timeline(slots: seq<PriceSlot>) {
    && (forall i :: 0 <= i < |slots| ==> slots[i].from < slots[i].till)
    && (forall i, j :: 0 <= i < j < |slots| ==> slots[i].till <= slots[j].from)
  }

  /** A timeline without gaps. */
  ghost predicate Contiguous(slots: seq<PriceSlot>) {
    && Timeline(slots)
    && (forall i :: 0 < i < |slots| ==> slots[i - 1].till == slots[i].from)
  }

  lemma StartsAscend(slots: seq<PriceSlot>, i: nat, j: nat)
    requires Timeline(slots) && i <= j < |slots|
    ensures slots[i].from <= slots[j].from && (i < j ==> slots[i].from < slots[j].from)
  {
    assert i < j ==> slots[i].till <= slots[j].from;
  }

  lemma TimelineIsUnambiguous(slots: seq<PriceSlot>, i: nat, j: nat, t: Time)
    requires Timeline(slots)
    requires i < |slots| && j < |slots| && slots[i].Contains(t) && slots[j].Contains(t)
    ensures i == j
  {
  }
}
