/** Cheapest consecutive window and cheapest separate slots of a price index (index.go). */
module CheapestWindow {
  import opened Sums
  import opened PriceSlots
  import opened PriceIndexes

  /** Where the block started at i and grown as far as j stops: once it spans the duration, or at the end. */
  function BlockEnd(c: seq<PriceSlot>, i: nat, j: nat, duration: Duration): (end: nat)
    requires i <= j < |c|
    ensures j < end <= |c|
    ensures forall k :: j <= k < end - 1 ==> c[k].till - c[i].from < duration
    ensures c[end - 1].till - c[i].from >= duration || end == |c|
    decreases |c| - j
  {
    if c[j].till - c[i].from >= duration || j + 1 == |c| then j + 1 else BlockEnd(c, i, j + 1, duration)
  }

  function Block(c: seq<PriceSlot>, i: nat, duration: Duration): (block: seq<PriceSlot>)
    requires i < |c|
    ensures block != []
  {
    c[i..BlockEnd(c, i, i, duration)]
  }

  ghost predicate Spans(c: seq<PriceSlot>, i: nat, duration: Duration) {
    i < |c| && c[BlockEnd(c, i, i, duration) - 1].till - c[i].from >= duration
  }

  ghost predicate EndsBy(c: seq<PriceSlot>, i: nat, duration: Duration, deadline: Time) {
    i < |c| && c[BlockEnd(c, i, i, duration) - 1].till <= deadline
  }

  /** Among the starts below n: the block from i ends by the deadline, none is cheaper, earlier ones are dearer. */
  ghost predicate CheapestBelow(c: seq<PriceSlot>, n: nat, i: nat, duration: Duration, deadline: Time) {
    && i < n <= |c|
    && EndsBy(c, i, duration, deadline)
    && (forall k: nat :: k < n && EndsBy(c, k, duration, deadline) ==>
                           MeanPrice(Block(c, i, duration)) <= MeanPrice(Block(c, k, duration)))
    && (forall k: nat :: k < i && EndsBy(c, k, duration, deadline) ==>
                           MeanPrice(Block(c, i, duration)) < MeanPrice(Block(c, k, duration)))
  }

  ghost predicate IsCheapestBlock(c: seq<PriceSlot>, i: nat, duration: Duration, deadline: Time) {
    CheapestBelow(c, |c|, i, duration, deadline)
  }

  lemma StillCheapest(c: seq<PriceSlot>, n: nat, i: nat, duration: Duration, deadline: Time)
    requires n < |c| && CheapestBelow(c, n, i, duration, deadline)
    requires EndsBy(c, n, duration, deadline) ==> MeanPrice(Block(c, i, duration)) <= MeanPrice(Block(c, n, duration))
    ensures CheapestBelow(c, n + 1, i, duration, deadline)
  {
  }

  lemma NewCheapest(c: seq<PriceSlot>, n: nat, i: nat, duration: Duration, deadline: Time)
    requires EndsBy(c, n, duration, deadline)
    requires (forall k: nat :: k < n ==> !EndsBy(c, k, duration, deadline))
             || (CheapestBelow(c, n, i, duration, deadline)
                 && MeanPrice(Block(c, n, duration)) < MeanPrice(Block(c, i, duration)))
    ensures CheapestBelow(c, n + 1, n, duration, deadline)
  {
  }

  method FindCheapestWindow(idx: PriceIndex, duration: Duration, from: Time, deadline: Time)
    returns (best: seq<PriceSlot>, found: bool)
    ensures found <==> best != []
    ensures found <==> exists i: nat :: EndsBy(InRange(idx.slots, from, deadline), i, duration, deadline)
    ensures found ==> exists i: nat :: IsCheapestBlock(InRange(idx.slots, from, deadline), i, duration, deadline)
                                       && best == Block(InRange(idx.slots, from, deadline), i, duration)
    ensures Timeline(idx.slots) ==>
              && (found <==> exists p: nat, q: nat :: IsOption(idx.slots, duration, from, deadline, p, q))
              && (found ==> exists p: nat, q: nat :: IsBestOption(idx.slots, duration, from, deadline, p, q)
                                                     && best == idx.slots[p..q])
  {
    hide CheapestBelow, InRange, IsOption, IsBestOption, Timeline;
    var c := SlotsInRange(idx.slots, from, deadline);
    best, found := [], false;
    var bestAvg := 0.0;
    ghost var at: nat := 0;
    for i := 0 to |c|
      invariant found <==> best != []
      invariant found <==> exists k: nat :: k < i && EndsBy(c, k, duration, deadline)
      invariant found ==> at < i && CheapestBelow(c, i, at, duration, deadline)
      invariant found ==> best == Block(c, at, duration) && bestAvg == MeanPrice(best)
    {
      var window, total := GrowBlock(c, i, duration);
      assert EndsBy(c, i, duration, deadline) <==> window[|window| - 1].till <= deadline;
      if window[|window| - 1].till > deadline {
        if found {
          StillCheapest(c, i, at, duration, deadline);
        }
        continue;
      }
      var avg := total / |window| as real;
      assert avg == MeanPrice(Block(c, i, duration));
      if !found || avg < bestAvg {
        NewCheapest(c, i, at, duration, deadline);
        bestAvg, best, found := avg, window, true;
        at := i;
      } else {
        StillCheapest(c, i, at, duration, deadline);
      }
    }
    assert found ==> IsCheapestBlock(c, at, duration, deadline);
    if Timeline(idx.slots) {
      FoundIff(idx.slots, duration, from, deadline);
      if found {
        ghost var p, q := CheapestIsBest(idx.slots, duration, from, deadline, at);
      }
    }
  }

  /** The inner loop: append slots from i on until the window spans the duration. */
  method GrowBlock(c: seq<PriceSlot>, i: nat, duration: Duration) returns (window: seq<PriceSlot>, total: real)
    requires i < |c|
    ensures window == Block(c, i, duration) && total == Sum(window, Price)
  {
    window, total := [], 0.0;
    var j := i;
    assert total == Sum(window, Price);
    hide Sum;
    while j < |c|
      invariant i <= j <= |c|
      invariant window == c[i..j] && total == Sum(window, Price)
      invariant j < |c| ==> BlockEnd(c, i, i, duration) == BlockEnd(c, i, j, duration)
      invariant j == |c| ==> BlockEnd(c, i, i, duration) == |c|
    {
      SumSlice(c, i, j + 1, Price);
      assert c[i..j] + [c[j]] == c[i..j + 1];
      window, total := window + [c[j]], total + c[j].price;
      if c[j].till - c[i].from >= duration {
        break;
      }
      j := j + 1;
    }
  }

  lemma EndsAscend(slots: seq<PriceSlot>, i: nat, j: nat)
    requires Timeline(slots) && i < j < |slots|
    ensures slots[i].till < slots[j].till
  {
  }

  /**
   * On a timeline a block that ends by the deadline is a run of consecutive slots of the index overlapping
   * [from, deadline); if it is shorter than the duration it is the tail of the candidates.
   */
  lemma CheapestWindowOnTimeline(slots: seq<PriceSlot>, duration: Duration, from: Time, deadline: Time, i: nat)
    returns (p: nat, q: nat)
    requires Timeline(slots) && EndsBy(InRange(slots, from, deadline), i, duration, deadline)
    ensures p < q <= |slots| && slots[p..q] == Block(InRange(slots, from, deadline), i, duration)
    ensures slots[p].till > from && slots[q - 1].till <= deadline
    ensures slots[q - 1].till - slots[p].from < duration ==> q == |slots| || slots[q].from >= deadline
  {
    hide InRange, Timeline;
    var c := InRange(slots, from, deadline);
    var a, b := RangeIsBlock(slots, from, deadline);
    var e := BlockEnd(c, i, i, duration);
    p, q := a + i, a + e;
    SubSlice(slots, a, b, p, q);
    assert slots[p] == c[i] && slots[q - 1] == c[e - 1];
    if slots[q - 1].till - slots[p].from < duration {
      assert q == b;
      if q < |slots| {
        EndsAscend(slots, p, q);
      }
    }
  }

  /**
   * The block of slots from p to q - 1 that a search from p grows: of the slots overlapping [from, deadline) as many
   * as it takes to span the duration, or all that are left.
   */
  ghost predicate IsGrown(slots: seq<PriceSlot>, duration: Duration, from: Time, deadline: Time, p: nat, q: nat) {
    && p < q <= |slots| && from < slots[p].till && slots[q - 1].from < deadline
    && (forall k :: p <= k < q - 1 ==> slots[k].till - slots[p].from < duration)
    && (slots[q - 1].till - slots[p].from >= duration || q == |slots| || slots[q].from >= deadline)
  }

  function AverageOf(slots: seq<PriceSlot>, p: nat, q: nat): real
    requires p < q <= |slots|
  {
    Sum(slots[p..q], Price) / (q - p) as real
  }

  /** Grown, and at its end by the deadline. */
  ghost predicate IsOption(slots: seq<PriceSlot>, duration: Duration, from: Time, deadline: Time, p: nat, q: nat) {
    IsGrown(slots, duration, from, deadline, p, q) && slots[q - 1].till <= deadline
  }

  /** Of all options none has a lower average, and every earlier one a higher. */
  ghost predicate IsBestOption(slots: seq<PriceSlot>, duration: Duration, from: Time, deadline: Time, p: nat, q: nat) {
    && IsOption(slots, duration, from, deadline, p, q)
    && forall p': nat, q': nat :: IsOption(slots, duration, from, deadline, p', q') ==>
                                    && AverageOf(slots, p, q) <= AverageOf(slots, p', q')
                                    && (p' < p ==> AverageOf(slots, p, q) < AverageOf(slots, p', q'))
  }

  lemma GrownIsBlock(slots: seq<PriceSlot>, duration: Duration, from: Time, deadline: Time, a: nat, b: nat, p: nat, q: nat)
    requires Timeline(slots) && a <= b <= |slots| && InRange(slots, from, deadline) == slots[a..b]
    requires forall i :: 0 <= i < |slots| ==> (a <= i < b <==> slots[i].till > from && slots[i].from < deadline)
    ensures IsGrown(slots, duration, from, deadline, p, q) <==>
            a <= p < b && q == a + BlockEnd(slots[a..b], p - a, p - a, duration)
  {
    hide InRange;
    var c := slots[a..b];
    if IsGrown(slots, duration, from, deadline, p, q) {
      BlockStarts(slots, from, deadline, a, b, p, q);
      GrownStopsHere(slots, duration, deadline, a, b, p, q);
    }
    if a <= p < b && q == a + BlockEnd(c, p - a, p - a, duration) {
      forall k | p <= k < q - 1 ensures slots[k].till - slots[p].from < duration {
        assert c[k - a] == slots[k];
      }
      assert c[q - 1 - a] == slots[q - 1] && c[p - a] == slots[p];
      hide Timeline;
    }
  }

  lemma BlockStarts(slots: seq<PriceSlot>, from: Time, deadline: Time, a: nat, b: nat, p: nat, q: nat)
    requires Timeline(slots) && a <= b <= |slots| && p < q <= |slots|
    requires forall i :: 0 <= i < |slots| ==> (a <= i < b <==> slots[i].till > from && slots[i].from < deadline)
    requires from < slots[p].till && slots[q - 1].from < deadline
    ensures a <= p && q <= b
  {
    StartsAscend(slots, p, q - 1);
    if p < q - 1 {
      EndsAscend(slots, p, q - 1);
    }
  }

  lemma GrownStopsHere(slots: seq<PriceSlot>, duration: Duration, deadline: Time, a: nat, b: nat, p: nat, q: nat)
    requires a <= p < q <= b <= |slots|
    requires forall i :: a <= i < b ==> slots[i].from < deadline
    requires forall k :: p <= k < q - 1 ==> slots[k].till - slots[p].from < duration
    requires slots[q - 1].till - slots[p].from >= duration || q == |slots| || slots[q].from >= deadline
    ensures q == a + BlockEnd(slots[a..b], p - a, p - a, duration)
  {
    var c := slots[a..b];
    var e := BlockEnd(c, p - a, p - a, duration);
    assert c[p - a] == slots[p] && c[e - 1] == slots[a + e - 1] && c[q - 1 - a] == slots[q - 1];
    assert !(a + e < q);
    assert !(q < a + e);
  }

  /** In terms of the slots of a timeline: the answer is the earliest of the cheapest options. */
  lemma CheapestIsBest(slots: seq<PriceSlot>, duration: Duration, from: Time, deadline: Time, i: nat)
    returns (p: nat, q: nat)
    requires Timeline(slots) && IsCheapestBlock(InRange(slots, from, deadline), i, duration, deadline)
    ensures IsBestOption(slots, duration, from, deadline, p, q)
    ensures q <= |slots| && Block(InRange(slots, from, deadline), i, duration) == slots[p..q]
  {
    var a, b := RangeIsBlock(slots, from, deadline);
    var c := slots[a..b];
    p, q := a + i, a + BlockEnd(c, i, i, duration);
    hide InRange, Timeline, MeanPrice, IsGrown;
    GrownIsBlock(slots, duration, from, deadline, a, b, p, q);
    OptionIsBlock(slots, duration, from, deadline, a, b, p, q);
    forall p': nat, q': nat | IsOption(slots, duration, from, deadline, p', q')
      ensures AverageOf(slots, p, q) <= AverageOf(slots, p', q')
      ensures p' < p ==> AverageOf(slots, p, q) < AverageOf(slots, p', q')
    {
      GrownIsBlock(slots, duration, from, deadline, a, b, p', q');
      OptionIsBlock(slots, duration, from, deadline, a, b, p', q');
    }
  }

  lemma OptionIsBlock(slots: seq<PriceSlot>, duration: Duration, from: Time, deadline: Time, a: nat, b: nat, p: nat, q: nat)
    requires a <= p < b <= |slots| && q == a + BlockEnd(slots[a..b], p - a, p - a, duration)
    ensures p < q <= b && Block(slots[a..b], p - a, duration) == slots[p..q]
    ensures EndsBy(slots[a..b], p - a, duration, deadline) <==> slots[q - 1].till <= deadline
    ensures MeanPrice(Block(slots[a..b], p - a, duration)) == AverageOf(slots, p, q)
  {
    SubSlice(slots, a, b, p, q);
  }

  /** And there is an answer exactly when there is an option. */
  lemma FoundIff(slots: seq<PriceSlot>, duration: Duration, from: Time, deadline: Time)
    requires Timeline(slots)
    ensures (exists i: nat :: EndsBy(InRange(slots, from, deadline), i, duration, deadline)) <==>
            exists p: nat, q: nat :: IsOption(slots, duration, from, deadline, p, q)
  {
    hide *;
    var a, b := RangeIsBlock(slots, from, deadline);
    if i: nat :| EndsBy(slots[a..b], i, duration, deadline) {
      EndingIsOption(slots, duration, from, deadline, a, b, i);
    }
    if p: nat, q: nat :| IsOption(slots, duration, from, deadline, p, q) {
      OptionEnds(slots, duration, from, deadline, a, b, p, q);
    }
  }

  lemma EndingIsOption(slots: seq<PriceSlot>, duration: Duration, from: Time, deadline: Time, a: nat, b: nat, i: nat)
    requires Timeline(slots) && a <= b <= |slots| && InRange(slots, from, deadline) == slots[a..b]
    requires forall i :: 0 <= i < |slots| ==> (a <= i < b <==> slots[i].till > from && slots[i].from < deadline)
    requires EndsBy(slots[a..b], i, duration, deadline)
    ensures exists p: nat, q: nat :: IsOption(slots, duration, from, deadline, p, q)
  {
    hide InRange, Timeline, MeanPrice, IsGrown, EndsBy;
    CandidateOf(slots[a..b], i, duration, deadline);
    var p, q := a + i, a + BlockEnd(slots[a..b], i, i, duration);
    GrownIsBlock(slots, duration, from, deadline, a, b, p, q);
    OptionIsBlock(slots, duration, from, deadline, a, b, p, q);
    assert IsOption(slots, duration, from, deadline, p, q);
  }

  lemma OptionEnds(slots: seq<PriceSlot>, duration: Duration, from: Time, deadline: Time, a: nat, b: nat, p: nat, q: nat)
    requires Timeline(slots) && a <= b <= |slots| && InRange(slots, from, deadline) == slots[a..b]
    requires forall i :: 0 <= i < |slots| ==> (a <= i < b <==> slots[i].till > from && slots[i].from < deadline)
    requires IsOption(slots, duration, from, deadline, p, q)
    ensures a <= p && EndsBy(slots[a..b], p - a, duration, deadline)
  {
    hide InRange, Timeline, MeanPrice, IsGrown, EndsBy;
    GrownIsBlock(slots, duration, from, deadline, a, b, p, q);
    OptionIsBlock(slots, duration, from, deadline, a, b, p, q);
  }

  lemma CandidateOf(c: seq<PriceSlot>, i: nat, duration: Duration, deadline: Time)
    requires EndsBy(c, i, duration, deadline)
    ensures i < |c|
  {
  }

  // ---- When is the answer at least as long as asked for? ----

  lemma {:induction false} BlockEndIgnoresPrices(c: seq<PriceSlot>, prices: seq<real>, i: nat, j: nat, duration: Duration)
    requires |prices| == |c| && i <= j < |c|
    ensures BlockEnd(Repriced(c, prices), i, j, duration) == BlockEnd(c, i, j, duration)
    decreases |c| - j
  {
    if !(c[j].till - c[i].from >= duration || j + 1 == |c|) {
      BlockEndIgnoresPrices(c, prices, i, j + 1, duration);
    }
  }

  function TailBargain(n: nat): (prices: seq<real>)
    ensures |prices| == n
  {
    seq(n, i => if i == n - 1 then -1.0 else 0.0)
  }

  lemma {:induction false} SumOfFree(s: seq<PriceSlot>)
    requires forall x :: x in s ==> x.price == 0.0
    ensures Sum(s, Price) == 0.0
  {
    if s != [] {
      SumOfFree(s[..|s| - 1]);
    }
  }

  lemma TailBargainWins(c: seq<PriceSlot>, duration: Duration, deadline: Time)
    requires c != [] && c[|c| - 1].till <= deadline && Length(c[|c| - 1]) < duration
    ensures IsCheapestBlock(Repriced(c, TailBargain(|c|)), |c| - 1, duration, deadline)
  {
    var r, last := Repriced(c, TailBargain(|c|)), |c| - 1;
    assert Block(r, last, duration) == [r[last]];
    assert [r[last]][..0] == [];
    assert Sum([r[last]], Price) == -1.0;
    assert MeanPrice(Block(r, last, duration)) == -1.0;
    forall k: nat | EndsBy(r, k, duration, deadline)
      ensures k < last ==> -1.0 < MeanPrice(Block(r, k, duration))
    {
      if k < last {
        EarlierBlockIsDearer(c, k, duration);
      }
    }
  }

  lemma EarlierBlockIsDearer(c: seq<PriceSlot>, k: nat, duration: Duration)
    requires k + 1 < |c|
    ensures MeanPrice(Block(Repriced(c, TailBargain(|c|)), k, duration)) > -1.0
  {
    var b := Block(Repriced(c, TailBargain(|c|)), k, duration);
    SumOfFree(b[..|b| - 1]);
    assert Sum(b, Price) >= -1.0;
    if |b| == 1 {
      assert b[0].price == 0.0;
    } else {
      AboveMinusOne(Sum(b, Price), |b|);
    }
  }

  lemma AboveMinusOne(total: real, n: nat)
    requires total >= -1.0 && n > 1
    ensures total / n as real > -1.0
  {
    assert total / n as real * n as real == total;
  }

  lemma LongLastCandidate(c: seq<PriceSlot>, prices: seq<real>, duration: Duration, deadline: Time, i: nat)
    requires Timeline(c) && |prices| == |c| > 0 && EndsBy(Repriced(c, prices), i, duration, deadline)
    requires c[|c| - 1].till > deadline || Length(c[|c| - 1]) >= duration
    ensures Spans(c, i, duration)
  {
    hide CheapestBelow, Timeline;
    BlockEndIgnoresPrices(c, prices, i, i, duration);
    StartsAscend(c, i, |c| - 1);
  }

  lemma TailBargainIsShort(c: seq<PriceSlot>, duration: Duration)
    requires c != [] && Length(c[|c| - 1]) < duration
    ensures !Spans(c, |c| - 1, duration)
  {
  }

  ghost predicate FullLengthAt(c: seq<PriceSlot>, prices: seq<real>, duration: Duration, deadline: Time)
    requires |prices| == |c|
  {
    forall i: nat :: IsCheapestBlock(Repriced(c, prices), i, duration, deadline) ==> Spans(c, i, duration)
  }

  /**
   * The documented "block of the requested duration" is returned whatever the prices are exactly when the
   * last candidate overruns the deadline or is itself as long as the duration.
   */
  lemma FullLengthAtAnyPrices(c: seq<PriceSlot>, duration: Duration, deadline: Time)
    requires Timeline(c) && c != []
    ensures (forall prices: seq<real> | |prices| == |c| :: FullLengthAt(c, prices, duration, deadline))
            <==> c[|c| - 1].till > deadline || Length(c[|c| - 1]) >= duration
  {
    hide EndsBy, Spans, Timeline;
    if c[|c| - 1].till > deadline || Length(c[|c| - 1]) >= duration {
      forall prices: seq<real> | |prices| == |c| ensures FullLengthAt(c, prices, duration, deadline) {
        forall i: nat | IsCheapestBlock(Repriced(c, prices), i, duration, deadline) ensures Spans(c, i, duration) {
          LongLastCandidate(c, prices, duration, deadline, i);
        }
      }
    } else {
      TailBargainWins(c, duration, deadline);
      TailBargainIsShort(c, duration);
      assert !FullLengthAt(c, TailBargain(|c|), duration, deadline);
    }
  }

  // ---- FindCheapestSlots ----

  /** The n cheapest candidates: no other choice of as many of them costs less in total. */
  method FindCheapestSlots(idx: PriceIndex, n: nat, from: Time, deadline: Time) returns (r: seq<PriceSlot>)
    ensures multiset(r) <= multiset(InRange(idx.slots, from, deadline))
    ensures |r| == if n < |InRange(idx.slots, from, deadline)| then n else |InRange(idx.slots, from, deadline)|
    ensures SortedBy(r, Price)
    ensures forall t: seq<PriceSlot> :: multiset(t) <= multiset(InRange(idx.slots, from, deadline)) && |t| == |r|
                                        ==> Sum(r, Price) <= Sum(t, Price)
  {
    var c := SlotsInRange(idx.slots, from, deadline);
    var sorted := Sort(c, Price);
    SumPermutation(sorted, c, Price);
    var m := if n > |sorted| then |sorted| else n;
    r := sorted[..m];
    assert sorted == sorted[..m] + sorted[m..];
    forall t: seq<PriceSlot> | multiset(t) <= multiset(c) && |t| == m ensures Sum(r, Price) <= Sum(t, Price) {
      LeastTotal(sorted, t, Price);
    }
  }
}
