/** Run-length summary of a day (index.go, Summary) and its window averages (conversion.go). */
module PriceSummaries {
  import opened Options
  import opened Sums
  import opened PriceSlots
  import opened PriceLevels
  import opened PriceIndexes

  /** What a slot counts as: a negative price takes precedence over its level. */
  datatype Kind = Negative | CheapKind | Expensive | Plain

  datatype Run = Run(level: PriceLevel, neg: bool, from: Time, till: Time)
  datatype SummaryWindow = SummaryWindow(level: PriceLevel, from: Time, till: Time)
  datatype IndexSummary = IndexSummary(
    cheap: seq<SummaryWindow>, expensive: seq<SummaryWindow>, negative: seq<SummaryWindow>, median: real)
  datatype PriceWindow = PriceWindow(from: Time, till: Time, avgPrice: real)

  function KindOf(level: PriceLevel, neg: bool): Kind {
    if neg then Negative
    else if level == Cheap then CheapKind
    else if level == High then Expensive
    else Plain
  }

  function SlotKind(idx: PriceIndex, s: PriceSlot): Kind {
    KindOf(idx.Level(s), s.price < 0.0)
  }

  function AddSlot(idx: PriceIndex, runs: seq<Run>, s: PriceSlot): seq<Run> {
    var n, level, neg := |runs|, idx.Level(s), s.price < 0.0;
    if n > 0 && runs[n - 1].level == level && runs[n - 1].neg == neg
    then runs[n - 1 := runs[n - 1].(till := s.till)]
    else runs + [Run(level, neg, s.from, s.till)]
  }

  function Runs(idx: PriceIndex, c: seq<PriceSlot>): seq<Run> {
    if c == [] then [] else AddSlot(idx, Runs(idx, c[..|c| - 1]), c[|c| - 1])
  }

  function Windows(runs: seq<Run>, kind: Kind): seq<SummaryWindow> {
    if runs == [] then []
    else
      var r := runs[|runs| - 1];
      Windows(runs[..|runs| - 1], kind)
      + if KindOf(r.level, r.neg) == kind then [SummaryWindow(r.level, r.from, r.till)] else []
  }

  function SummaryOf(idx: PriceIndex, from: Time, deadline: Time): IndexSummary {
    var runs := Runs(idx, InRange(idx.slots, from, deadline));
    IndexSummary(Windows(runs, CheapKind), Windows(runs, Expensive), Windows(runs, Negative), idx.median)
  }

  method Summary(idx: PriceIndex, from: Time, deadline: Time) returns (summary: IndexSummary)
    ensures summary == SummaryOf(idx, from, deadline)
  {
    summary := IndexSummary([], [], [], idx.median);
    var c := SlotsInRange(idx.slots, from, deadline);
    if |c| == 0 {
      return;
    }
    var runs: seq<Run> := [];
    for i := 0 to |c|
      invariant runs == Runs(idx, c[..i])
    {
      assert c[..i + 1][..i] == c[..i];
      var s := c[i];
      var level, neg := idx.Level(s), s.price < 0.0;
      if |runs| > 0 && runs[|runs| - 1].level == level && runs[|runs| - 1].neg == neg {
        runs := runs[|runs| - 1 := runs[|runs| - 1].(till := s.till)];
      } else {
        runs := runs + [Run(level, neg, s.from, s.till)];
      }
    }
    assert c[..|c|] == c;
    for i := 0 to |runs|
      invariant summary.cheap == Windows(runs[..i], CheapKind)
      invariant summary.expensive == Windows(runs[..i], Expensive)
      invariant summary.negative == Windows(runs[..i], Negative)
      invariant summary.median == idx.median
    {
      assert runs[..i + 1][..i] == runs[..i];
      var r := runs[i];
      var w := SummaryWindow(r.level, r.from, r.till);
      if r.neg {
        summary := summary.(negative := summary.negative + [w]);
      } else if r.level == Cheap {
        summary := summary.(cheap := summary.cheap + [w]);
      } else if r.level == High {
        summary := summary.(expensive := summary.expensive + [w]);
      }
    }
    assert runs[..|runs|] == runs;
  }

  // ---- What the runs are ----

  ghost predicate Matches(idx: PriceIndex, c: seq<PriceSlot>, r: Run, p: nat, q: nat) {
    && p < q <= |c|
    && r.from == c[p].from && r.till == c[q - 1].till
    && forall j :: p <= j < q ==> idx.Level(c[j]) == r.level && (c[j].price < 0.0) == r.neg
  }

  /** The runs cut the candidates into consecutive blocks of one level and sign; neighbours differ. */
  ghost predicate CutsInto(idx: PriceIndex, c: seq<PriceSlot>, runs: seq<Run>, cuts: seq<nat>) {
    && |cuts| == |runs| + 1 && cuts[0] == 0 && cuts[|runs|] == |c|
    && (forall k :: 0 <= k < |runs| ==> Matches(idx, c, runs[k], cuts[k], cuts[k + 1]))
    && (forall k :: 0 < k < |runs| ==> runs[k - 1].level != runs[k].level || runs[k - 1].neg != runs[k].neg)
  }

  lemma {:induction false} RunsCutTheCandidates(idx: PriceIndex, c: seq<PriceSlot>) returns (cuts: seq<nat>)
    ensures CutsInto(idx, c, Runs(idx, c), cuts)
  {
    if c == [] {
      cuts := [0];
    } else {
      var c', s, runs := c[..|c| - 1], c[|c| - 1], Runs(idx, c[..|c| - 1]);
      var cuts' := RunsCutTheCandidates(idx, c');
      forall k | 0 <= k < |runs| ensures Matches(idx, c, runs[k], cuts'[k], cuts'[k + 1]) {
        assert Matches(idx, c', runs[k], cuts'[k], cuts'[k + 1]);
      }
      var n := |runs|;
      if n > 0 && runs[n - 1].level == idx.Level(s) && runs[n - 1].neg == (s.price < 0.0) {
        cuts := cuts'[n := |c|];
        assert Matches(idx, c, Runs(idx, c)[n - 1], cuts[n - 1], cuts[n]);
      } else {
        cuts := cuts' + [|c|];
        assert Matches(idx, c, Runs(idx, c)[n], cuts[n], cuts[n + 1]);
      }
    }
  }

  lemma {:induction false} CutAround(idx: PriceIndex, c: seq<PriceSlot>, runs: seq<Run>, cuts: seq<nat>, j: nat, n: nat)
    returns (k: nat)
    requires CutsInto(idx, c, runs, cuts) && n <= |runs| && j < cuts[n]
    ensures k < n && cuts[k] <= j < cuts[k + 1]
  {
    assert Matches(idx, c, runs[n - 1], cuts[n - 1], cuts[n]);
    if cuts[n - 1] <= j {
      k := n - 1;
    } else {
      k := CutAround(idx, c, runs, cuts, j, n - 1);
    }
  }

  lemma {:induction false} InstantInBlock(c: seq<PriceSlot>, p: nat, q: nat, t: Time) returns (j: nat)
    requires Contiguous(c) && p < q <= |c| && c[p].from <= t < c[q - 1].till
    ensures p <= j < q && c[j].Contains(t)
  {
    if c[q - 1].from <= t {
      j := q - 1;
    } else {
      j := InstantInBlock(c, p, q - 1, t);
    }
  }

  lemma {:induction false} WindowsOfRuns(runs: seq<Run>, kind: Kind, w: SummaryWindow)
    ensures w in Windows(runs, kind) <==>
            exists k :: 0 <= k < |runs| && KindOf(runs[k].level, runs[k].neg) == kind
                        && w == SummaryWindow(runs[k].level, runs[k].from, runs[k].till)
  {
    if runs != [] {
      WindowsOfRuns(runs[..|runs| - 1], kind, w);
    }
  }

  ghost predicate Covers(windows: seq<SummaryWindow>, t: Time) {
    exists w :: w in windows && w.from <= t < w.till
  }

  lemma RangeOfContiguous(idx: PriceIndex, from: Time, deadline: Time) returns (a: nat, b: nat)
    requires Contiguous(idx.slots)
    ensures a <= b <= |idx.slots| && InRange(idx.slots, from, deadline) == idx.slots[a..b]
    ensures Contiguous(InRange(idx.slots, from, deadline))
    ensures forall i :: 0 <= i < |idx.slots| ==>
                          (a <= i < b <==> idx.slots[i].till > from && idx.slots[i].from < deadline)
  {
    a, b := RangeIsBlock(idx.slots, from, deadline);
    var c := InRange(idx.slots, from, deadline);
    forall i | 0 < i < |c| ensures c[i - 1].till == c[i].from {
      assert c[i] == idx.slots[a + i] && c[i - 1] == idx.slots[a + i - 1];
    }
  }

  /**
   * Within the queried range, an instant lies in a cheap, expensive or negative window of the summary
   * exactly when the slot SlotAt finds there is of that kind.
   */
  lemma SummaryAgreesWithSlotAt(idx: PriceIndex, from: Time, deadline: Time, t: Time, kind: Kind)
    requires Contiguous(idx.slots) && from <= t < deadline
    ensures Covers(Windows(Runs(idx, InRange(idx.slots, from, deadline)), kind), t) <==>
            (FirstContaining(idx.slots, t).Some? && SlotKind(idx, FirstContaining(idx.slots, t).value) == kind)
  {
    var c := InRange(idx.slots, from, deadline);
    var runs := Runs(idx, c);
    var a, b := RangeOfContiguous(idx, from, deadline);
    var cuts := RunsCutTheCandidates(idx, c);
    if Covers(Windows(runs, kind), t) {
      CoveredSlot(idx, c, runs, cuts, a, t, kind);
    } else if FirstContaining(idx.slots, t).Some? {
      var i := FirstContainingIndex(idx.slots, t);
      assert c[i - a] == idx.slots[i];
      SlotIsCovered(idx, c, runs, cuts, i - a, t);
    }
  }

  /**
   * The same in prices: within the queried range an instant lies in a negative window exactly when the slot around it
   * has a negative price. It lies in a cheap one exactly when that price is not negative and at or below the cheap
   * threshold, and in an expensive one exactly when it is not negative, above the cheap threshold and at or above the
   * expensive one; but in neither when both thresholds are 0.
   */
  lemma SummaryInPrices(idx: PriceIndex, from: Time, deadline: Time, t: Time)
    requires Contiguous(idx.slots) && from <= t < deadline
    ensures var summary, known := SummaryOf(idx, from, deadline), idx.cheap != 0.0 || idx.expensive != 0.0;
            && summary.median == idx.median
            && (Covers(summary.negative, t) <==>
                  exists s :: s in idx.slots && s.from <= t < s.till && s.price < 0.0)
            && (Covers(summary.cheap, t) <==>
                  known && exists s :: s in idx.slots && s.from <= t < s.till && 0.0 <= s.price <= idx.cheap)
            && (Covers(summary.expensive, t) <==>
                  known && exists s :: s in idx.slots && s.from <= t < s.till
                                       && s.price >= 0.0 && s.price > idx.cheap && s.price >= idx.expensive)
  {
    hide Runs, Windows, InRange;
    SummaryAgreesWithSlotAt(idx, from, deadline, t, Negative);
    SummaryAgreesWithSlotAt(idx, from, deadline, t, CheapKind);
    SummaryAgreesWithSlotAt(idx, from, deadline, t, Expensive);
    FirstContainingFound(idx.slots, t);
    forall s | s in idx.slots && s.from <= t < s.till ensures FirstContaining(idx.slots, t) == Some(s) {
      var i :| 0 <= i < |idx.slots| && idx.slots[i] == s;
      SlotAtIsTheSlotAround(idx.slots, i, t);
    }
  }

  lemma FirstContainingIndex(slots: seq<PriceSlot>, t: Time) returns (i: nat)
    requires FirstContaining(slots, t).Some?
    ensures i < |slots| && slots[i].Contains(t) && FirstContaining(slots, t).value == slots[i]
  {
    FirstContainingFound(slots, t);
    i :| IsFirstAround(slots, t, i) && FirstContaining(slots, t).value == slots[i];
  }

  lemma CoveredSlot(idx: PriceIndex, c: seq<PriceSlot>, runs: seq<Run>, cuts: seq<nat>, a: nat, t: Time, kind: Kind)
    requires Contiguous(idx.slots) && a + |c| <= |idx.slots| && c == idx.slots[a..a + |c|] && Contiguous(c)
    requires CutsInto(idx, c, runs, cuts) && Covers(Windows(runs, kind), t)
    ensures FirstContaining(idx.slots, t).Some? && SlotKind(idx, FirstContaining(idx.slots, t).value) == kind
  {
    hide Windows, SlotKind, KindOf, FirstContaining;
    var w :| w in Windows(runs, kind) && w.from <= t < w.till;
    WindowsOfRuns(runs, kind, w);
    var k :| 0 <= k < |runs| && KindOf(runs[k].level, runs[k].neg) == kind
             && w == SummaryWindow(runs[k].level, runs[k].from, runs[k].till);
    assert Matches(idx, c, runs[k], cuts[k], cuts[k + 1]);
    var j := InstantInBlock(c, cuts[k], cuts[k + 1], t);
    assert idx.slots[a + j] == c[j];
    SlotAtIsTheSlotAround(idx.slots, a + j, t);
    KindInRun(idx, c, runs[k], cuts[k], cuts[k + 1], j);
  }

  lemma KindInRun(idx: PriceIndex, c: seq<PriceSlot>, r: Run, p: nat, q: nat, j: nat)
    requires Matches(idx, c, r, p, q) && p <= j < q
    ensures SlotKind(idx, c[j]) == KindOf(r.level, r.neg)
  {
  }

  lemma SlotIsCovered(idx: PriceIndex, c: seq<PriceSlot>, runs: seq<Run>, cuts: seq<nat>, j: nat, t: Time)
    requires Timeline(c) && CutsInto(idx, c, runs, cuts) && j < |c| && c[j].Contains(t)
    ensures Covers(Windows(runs, SlotKind(idx, c[j])), t)
  {
    var k := CutAround(idx, c, runs, cuts, j, |runs|);
    RunSpansItsSlots(idx, c, runs[k], cuts[k], cuts[k + 1], j);
    WindowsOfRuns(runs, SlotKind(idx, c[j]), SummaryWindow(runs[k].level, runs[k].from, runs[k].till));
  }

  lemma RunSpansItsSlots(idx: PriceIndex, c: seq<PriceSlot>, r: Run, p: nat, q: nat, j: nat)
    requires Timeline(c) && Matches(idx, c, r, p, q) && p <= j < q
    ensures r.from <= c[j].from && c[j].till <= r.till
    ensures SlotKind(idx, c[j]) == KindOf(r.level, r.neg)
  {
    assert p < j ==> c[p].till <= c[j].from;
    assert j < q - 1 ==> c[j].till <= c[q - 1].from;
  }

  // ---- convertWindows ----

  /** Slots starting in [from, till), until the first that starts too late. */
  function StartingIn(slots: seq<PriceSlot>, from: Time, till: Time): seq<PriceSlot> {
    if slots == [] then []
    else if slots[0].from < from then StartingIn(slots[1..], from, till)
    else if slots[0].from >= till then []
    else [slots[0]] + StartingIn(slots[1..], from, till)
  }

  method ConvertWindows(idx: PriceIndex, windows: seq<SummaryWindow>) returns (result: seq<PriceWindow>)
    ensures |result| == |windows|
    ensures forall k :: 0 <= k < |windows| ==>
                          result[k] == PriceWindow(windows[k].from, windows[k].till,
                                                   MeanPrice(StartingIn(idx.slots, windows[k].from, windows[k].till)))
  {
    result := [];
    for n := 0 to |windows|
      invariant |result| == n
      invariant forall k :: 0 <= k < n ==>
                              result[k] == PriceWindow(windows[k].from, windows[k].till,
                                                       MeanPrice(StartingIn(idx.slots, windows[k].from, windows[k].till)))
    {
      var w := windows[n];
      var total, count := WindowTotal(idx.slots, w.from, w.till);
      var avg := 0.0;
      if count > 0 {
        avg := total / count as real;
      }
      result := result + [PriceWindow(w.from, w.till, avg)];
    }
  }

  /** The inner loop of ConvertWindows. */
  method WindowTotal(slots: seq<PriceSlot>, from: Time, till: Time) returns (total: real, count: nat)
    ensures total == Sum(StartingIn(slots, from, till), Price)
    ensures count == |StartingIn(slots, from, till)|
  {
    total, count := 0.0, 0;
    ghost var taken := [];
    for i := 0 to |slots|
      invariant StartingIn(slots, from, till) == taken + StartingIn(slots[i..], from, till)
      invariant total == Sum(taken, Price) && count == |taken|
    {
      assert slots[i..][1..] == slots[i + 1..];
      if slots[i].from < from {
        continue;
      }
      if slots[i].from >= till {
        break;
      }
      assert (taken + [slots[i]])[..|taken|] == taken;
      taken := taken + [slots[i]];
      total, count := total + slots[i].price, count + 1;
    }
    assert taken + [] == taken;
  }

  /** On slots sorted by start these are exactly the slots that start in [from, till). */
  lemma {:induction false} StartingInIsBlock(slots: seq<PriceSlot>, from: Time, till: Time) returns (a: nat, b: nat)
    requires SortedByFrom(slots)
    ensures a <= b <= |slots| && StartingIn(slots, from, till) == slots[a..b]
    ensures forall i :: 0 <= i < |slots| ==> (a <= i < b <==> from <= slots[i].from < till)
  {
    if slots == [] {
      a, b := 0, 0;
    } else if slots[0].from < from {
      a, b := StartingInIsBlock(slots[1..], from, till);
      a, b := a + 1, b + 1;
      assert slots[1..][a - 1..b - 1] == slots[a..b];
      assert forall i :: 1 <= i < |slots| ==> slots[i] == slots[1..][i - 1];
    } else {
      a, b := 0, |StartingIn(slots, from, till)|;
      StartingInHead(slots, from, till);
    }
  }

  /** When no slot starts before from they are a prefix. */
  lemma {:induction false} StartingInHead(slots: seq<PriceSlot>, from: Time, till: Time)
    requires SortedByFrom(slots) && forall i :: 0 <= i < |slots| ==> slots[i].from >= from
    ensures StartingIn(slots, from, till) <= slots
    ensures forall i :: 0 <= i < |slots| ==> (i < |StartingIn(slots, from, till)| <==> slots[i].from < till)
  {
    if slots != [] && slots[0].from < till {
      StartingInHead(slots[1..], from, till);
      assert forall i :: 1 <= i < |slots| ==> slots[i] == slots[1..][i - 1];
    }
  }

  lemma {:induction false} StartingInBlock(slots: seq<PriceSlot>, p: nat, q: nat, till: Time)
    requires Timeline(slots) && p < q <= |slots| && till == slots[q - 1].till
    ensures StartingIn(slots, slots[p].from, till) == slots[p..q]
  {
    if p > 0 {
      StartingInBlock(slots[1..], p - 1, q - 1, till);
      assert slots[1..][p - 1..q - 1] == slots[p..q];
    } else {
      StartingInPrefix(slots, q, slots[0].from, till);
    }
  }

  lemma {:induction false} StartingInPrefix(slots: seq<PriceSlot>, q: nat, from: Time, till: Time)
    requires Timeline(slots) && q <= |slots|
    requires forall i :: 0 <= i < |slots| ==> slots[i].from >= from
    requires forall i :: 0 <= i < |slots| ==> (i < q <==> slots[i].from < till)
    ensures StartingIn(slots, from, till) == slots[..q]
  {
    if q > 0 {
      StartingInPrefix(slots[1..], q - 1, from, till);
      assert slots[..q] == [slots[0]] + slots[1..][..q - 1];
    }
  }

  /** The average reported for the window of a run is that of exactly the slots merged into the run. */
  lemma WindowAveragesItsRun(idx: PriceIndex, from: Time, deadline: Time, cuts: seq<nat>, k: nat)
    requires Timeline(idx.slots)
    requires CutsInto(idx, InRange(idx.slots, from, deadline), Runs(idx, InRange(idx.slots, from, deadline)), cuts)
    requires k < |Runs(idx, InRange(idx.slots, from, deadline))|
    ensures cuts[k] < cuts[k + 1] <= |InRange(idx.slots, from, deadline)|
    ensures var r := Runs(idx, InRange(idx.slots, from, deadline))[k];
            MeanPrice(StartingIn(idx.slots, r.from, r.till))
            == MeanPrice(InRange(idx.slots, from, deadline)[cuts[k]..cuts[k + 1]])
  {
    var c := InRange(idx.slots, from, deadline);
    var a, b := RangeIsBlock(idx.slots, from, deadline);
    assert Matches(idx, c, Runs(idx, c)[k], cuts[k], cuts[k + 1]);
    StartingInBlock(idx.slots, a + cuts[k], a + cuts[k + 1], c[cuts[k + 1] - 1].till);
    SubSlice(idx.slots, a, b, a + cuts[k], a + cuts[k + 1]);
  }

  // ---- priceRange ----

  /** The least price, the greatest price but at least 0, and the average; all 0 when no slot starts in the range. */
  method PriceRange(slots: seq<PriceSlot>, from: Time, deadline: Time) returns (min: real, max: real, avg: real)
    ensures var c := StartingIn(slots, from, deadline);
            if c == [] then min == max == avg == 0.0
            else
              && avg == MeanPrice(c)
              && (exists s :: s in c && min == s.price) && (forall s :: s in c ==> min <= s.price <= max)
              && (max == 0.0 || (max > 0.0 && exists s :: s in c && max == s.price))
  {
    var total, count := 0.0, 0;
    min, max := 0.0, 0.0;
    ghost var taken := [];
    for i := 0 to |slots|
      invariant StartingIn(slots, from, deadline) == taken + StartingIn(slots[i..], from, deadline)
      invariant total == Sum(taken, Price) && count == |taken|
      invariant taken != [] ==> exists s :: s in taken && min == s.price
      invariant forall s :: s in taken ==> min <= s.price <= max
      invariant max == 0.0 || (max > 0.0 && exists s :: s in taken && max == s.price)
    {
      assert slots[i..][1..] == slots[i + 1..];
      if slots[i].from < from {
        continue;
      }
      if slots[i].from >= deadline {
        break;
      }
      var s := slots[i];
      assert (taken + [s])[..|taken|] == taken && s in taken + [s];
      if count == 0 || s.price < min {
        min := s.price;
      }
      if s.price > max {
        max := s.price;
      }
      taken := taken + [s];
      total, count := total + s.price, count + 1;
    }
    assert taken + [] == taken;
    if count == 0 {
      return 0.0, 0.0, 0.0;
    }
    avg := total / count as real;
  }

  ghost predicate IsGreatestPrice(x: real, c: seq<PriceSlot>) {
    (exists s :: s in c && x == s.price) && forall s :: s in c ==> s.price <= x
  }

  /**
   * What PriceRange reports as the maximum of a non-empty range is its greatest price exactly if some price in it
   * is not negative, because the search starts at 0.
   */
  lemma MaximumIsRightIff(c: seq<PriceSlot>, max: real)
    requires c != [] && (forall s :: s in c ==> s.price <= max)
    requires max == 0.0 || (max > 0.0 && exists s :: s in c && max == s.price)
    ensures IsGreatestPrice(max, c) <==> exists s :: s in c && s.price >= 0.0
  {
    if s :| s in c && s.price >= 0.0 {
      assert max >= 0.0;
    }
  }
}
