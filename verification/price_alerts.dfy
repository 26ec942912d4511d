/** Which run of prices an update alerts (announcer.go), in terms of the slots and their prices. */
module PriceAlerts {
  import opened Options
  import opened Sums
  import opened PriceSlots
  import opened PriceIndexes
  import opened PriceAnnouncer

  /** In view: not ended at now, and starting by the deadline; and its price is negative or above the threshold. */
  ghost predicate StandsOut(s: PriceSlot, threshold: real, now: Time, deadline: Time) {
    now < s.till && s.from <= deadline && (s.price < 0.0 || threshold < s.price)
  }

  /** As many neighbouring slots as stand out, lasting long enough together. */
  ghost predicate IsLongRun(slots: seq<PriceSlot>, threshold: real, minLength: Duration, now: Time, deadline: Time,
                            p: nat, q: nat) {
    && p < q <= |slots|
    && (forall i :: p <= i < q ==> StandsOut(slots[i], threshold, now, deadline))
    && (p > 0 ==> !StandsOut(slots[p - 1], threshold, now, deadline))
    && (q < |slots| ==> !StandsOut(slots[q], threshold, now, deadline))
    && TotalLength(slots[p..q]) >= minLength
  }

  ghost predicate IsFirstLongRun(slots: seq<PriceSlot>, threshold: real, minLength: Duration, now: Time, deadline: Time,
                                 p: nat, q: nat) {
    && IsLongRun(slots, threshold, minLength, now, deadline, p, q)
    && forall p': nat, q': nat :: IsLongRun(slots, threshold, minLength, now, deadline, p', q') ==> p <= p'
  }

  /** What is reported of the slots from p to q: the sign of the first price decides how the run is named. */
  ghost function Report(slots: seq<PriceSlot>, p: nat, q: nat): ExtremeRun
    requires p < q <= |slots|
  {
    ExtremeRun(slots[p].from, slots[p].from + TotalLength(slots[p..q]),
               if slots[p].price < 0.0 then NegativePrices else ExtremePrices)
  }

  /** On a timeline the slots in view are a block, and a run of the block is a run of the whole. */
  lemma RunOfBlock(bar: Bar, slots: seq<PriceSlot>, now: Time, deadline: Time, a: nat, b: nat, p: nat, q: nat)
    requires a <= b <= |slots| && forall i :: 0 <= i < |slots| ==> (a <= i < b <==> IsConsidered(slots[i], now, deadline))
    requires a <= p <= q
    ensures Qualifies(bar, slots[a..b], p - a, q - a) <==>
            IsLongRun(slots, bar.threshold, bar.minLength, now, deadline, p, q)
  {
    var c := slots[a..b];
    hide TotalLength;
    if p < q <= b {
      SubSlice(slots, a, b, p, q);
      forall i | p <= i < q ensures c[i - a] == slots[i] {
      }
      assert p > a ==> c[p - a - 1] == slots[p - 1];
      assert q < b ==> c[q - a] == slots[q];
      if Qualifies(bar, c, p - a, q - a) {
        forall i | p <= i < q ensures StandsOut(slots[i], bar.threshold, now, deadline) {
          assert bar.Extreme(c[i - a]);
        }
      }
    } else if p < q <= |slots| {
      assert !IsConsidered(slots[q - 1], now, deadline);
      assert !StandsOut(slots[q - 1], bar.threshold, now, deadline);
    }
  }

  lemma LongRunInView(slots: seq<PriceSlot>, threshold: real, minLength: Duration, now: Time, deadline: Time, a: nat, b: nat,
                      p: nat, q: nat)
    requires a <= b <= |slots| && forall i :: 0 <= i < |slots| ==> (a <= i < b <==> IsConsidered(slots[i], now, deadline))
    requires IsLongRun(slots, threshold, minLength, now, deadline, p, q)
    ensures a <= p < q <= b
  {
    assert StandsOut(slots[p], threshold, now, deadline) && StandsOut(slots[q - 1], threshold, now, deadline);
  }

  /** On a timeline firstExtremeRun reports the first long run, and nothing exactly when there is none. */
  lemma FirstRunInPrices(bar: Bar, slots: seq<PriceSlot>, now: Time, deadline: Time)
    requires Timeline(slots)
    ensures FirstRun(bar, slots, now, deadline).None? <==>
            forall p: nat, q: nat :: !IsLongRun(slots, bar.threshold, bar.minLength, now, deadline, p, q)
    ensures FirstRun(bar, slots, now, deadline).Some? ==>
              exists p: nat, q: nat :: IsFirstLongRun(slots, bar.threshold, bar.minLength, now, deadline, p, q)
                                       && FirstRun(bar, slots, now, deadline) == Some(Report(slots, p, q))
  {
    hide FirstRun, IsLongRun, Qualifies, TotalLength, Considered, IsConsidered, Timeline;
    var a, b := ConsideredIsBlock(slots, now, deadline);
    if p: nat, q: nat :| IsLongRun(slots, bar.threshold, bar.minLength, now, deadline, p, q) {
      LongRunInView(slots, bar.threshold, bar.minLength, now, deadline, a, b, p, q);
      RunOfBlock(bar, slots, now, deadline, a, b, p, q);
      FirstRunExists(bar, slots[a..b], p - a, q - a);
    }
    if u: nat, v: nat :| IsFirstRun(bar, slots[a..b], u, v) {
      FirstLongRun(bar, slots, now, deadline, a, b, u, v);
    } else {
      NoFirstRun(bar, slots, now, deadline);
    }
  }

  lemma NoFirstRun(bar: Bar, slots: seq<PriceSlot>, now: Time, deadline: Time)
    requires forall u: nat, v: nat :: !IsFirstRun(bar, Considered(slots, now, deadline), u, v)
    ensures FirstRun(bar, slots, now, deadline) == None
  {
  }

  lemma FirstLongRun(bar: Bar, slots: seq<PriceSlot>, now: Time, deadline: Time, a: nat, b: nat, u: nat, v: nat)
    requires a <= b <= |slots| && Considered(slots, now, deadline) == slots[a..b]
    requires forall i :: 0 <= i < |slots| ==> (a <= i < b <==> IsConsidered(slots[i], now, deadline))
    requires IsFirstRun(bar, slots[a..b], u, v)
    ensures IsFirstLongRun(slots, bar.threshold, bar.minLength, now, deadline, a + u, a + v)
    ensures a + u < a + v <= |slots| && FirstRun(bar, slots, now, deadline) == Some(Report(slots, a + u, a + v))
  {
    hide *;
    InBounds(bar, slots[a..b], u, v);
    RunOfBlock(bar, slots, now, deadline, a, b, a + u, a + v);
    NoneBefore(bar, slots, now, deadline, a, b, u, v);
    IsFirstOf(bar, slots, now, deadline, a, b, u, v);
    FirstRunIsUnique(bar, slots, now, deadline, u, v);
    ReportOfBlock(slots, a, b, u, v);
  }

  lemma InBounds(bar: Bar, c: seq<PriceSlot>, u: nat, v: nat)
    requires IsFirstRun(bar, c, u, v)
    ensures u < v <= |c| && Qualifies(bar, c, u, v)
  {
  }

  lemma NoneBefore(bar: Bar, slots: seq<PriceSlot>, now: Time, deadline: Time, a: nat, b: nat, u: nat, v: nat)
    requires a <= b <= |slots|
    requires forall i :: 0 <= i < |slots| ==> (a <= i < b <==> IsConsidered(slots[i], now, deadline))
    requires IsFirstRun(bar, slots[a..b], u, v)
    ensures forall p: nat, q: nat :: IsLongRun(slots, bar.threshold, bar.minLength, now, deadline, p, q) ==> a + u <= p
  {
    hide IsLongRun, Qualifies, IsConsidered;
    forall p: nat, q: nat | IsLongRun(slots, bar.threshold, bar.minLength, now, deadline, p, q) ensures a + u <= p {
      LongRunInView(slots, bar.threshold, bar.minLength, now, deadline, a, b, p, q);
      RunOfBlock(bar, slots, now, deadline, a, b, p, q);
    }
  }

  lemma IsFirstOf(bar: Bar, slots: seq<PriceSlot>, now: Time, deadline: Time, a: nat, b: nat, u: nat, v: nat)
    requires IsLongRun(slots, bar.threshold, bar.minLength, now, deadline, a + u, a + v)
    requires forall p: nat, q: nat :: IsLongRun(slots, bar.threshold, bar.minLength, now, deadline, p, q) ==> a + u <= p
    ensures IsFirstLongRun(slots, bar.threshold, bar.minLength, now, deadline, a + u, a + v)
  {
    hide IsLongRun;
  }

  lemma ReportOfBlock(slots: seq<PriceSlot>, a: nat, b: nat, u: nat, v: nat)
    requires a <= b <= |slots| && u < v <= b - a
    ensures RunOf(slots[a..b], u, v) == Report(slots, a + u, a + v)
  {
    SubSlice(slots, a, b, a + u, a + v);
    assert slots[a..b][u] == slots[a + u];
  }

  /** The end of the day of now, in days of 24 hours. */
  ghost function EndOfDay(now: Time): Time {
    (now / 86_400_000_000_000 + 1) * 86_400_000_000_000
  }

  /** The first long run of an update, up to the end of its day and against the median times the multiplier. */
  ghost predicate IsRunOf(idx: PriceIndex, cfg: Config, u: Update, p: nat, q: nat) {
    IsFirstLongRun(idx.slots, idx.median * cfg.spikeMultiplier, cfg.minExtremeDuration, u.now, EndOfDay(u.now), p, q)
  }

  /**
   * On a timeline an update alerts exactly when neither night nor away mode suppresses it, there is a long run that does
   * not start where the one alerted last did, and the notifier accepts. It alerts the first such run.
   */
  lemma AlertInPrices(idx: PriceIndex, cfg: Config, last: Time, u: Update)
    requires Timeline(idx.slots)
    ensures var d := Delivered(BarOf(idx, cfg), idx.slots, last, u);
            && (d.Some? <==> !u.suppressed && u.accepted
                             && exists p: nat, q: nat :: IsRunOf(idx, cfg, u, p, q) && idx.slots[p].from != last)
            && (d.Some? ==> exists p: nat, q: nat :: IsRunOf(idx, cfg, u, p, q) && d == Some(Report(idx.slots, p, q)))
  {
    hide *;
    AlertOfBar(BarOf(idx, cfg), idx.slots, last, u);
    RunsOfBar(idx, cfg, u);
  }

  ghost predicate IsBarRun(bar: Bar, slots: seq<PriceSlot>, u: Update, p: nat, q: nat) {
    IsFirstLongRun(slots, bar.threshold, bar.minLength, u.now, Midnight(u.now), p, q)
  }

  lemma RunsOfBar(idx: PriceIndex, cfg: Config, u: Update)
    ensures forall p: nat, q: nat :: IsBarRun(BarOf(idx, cfg), idx.slots, u, p, q) <==> IsRunOf(idx, cfg, u, p, q)
    ensures forall p: nat, q: nat :: IsRunOf(idx, cfg, u, p, q) ==> p < q <= |idx.slots|
  {
    assert Midnight(u.now) == EndOfDay(u.now);
    hide Midnight, EndOfDay;
    forall p: nat, q: nat ensures IsBarRun(BarOf(idx, cfg), idx.slots, u, p, q) <==> IsRunOf(idx, cfg, u, p, q) {
      hide IsFirstLongRun;
    }
  }

  lemma AlertOfBar(bar: Bar, slots: seq<PriceSlot>, last: Time, u: Update)
    requires Timeline(slots)
    ensures forall p: nat, q: nat :: IsBarRun(bar, slots, u, p, q) ==> p < q <= |slots|
    ensures var d := Delivered(bar, slots, last, u);
            && (d.Some? <==> !u.suppressed && u.accepted
                             && exists p: nat, q: nat :: IsBarRun(bar, slots, u, p, q) && slots[p].from != last)
            && (d.Some? ==> exists p: nat, q: nat :: IsBarRun(bar, slots, u, p, q) && d == Some(Report(slots, p, q)))
  {
    hide FirstRun, Timeline, IsFirstLongRun, IsLongRun, Midnight, Report;
    FirstRunInPrices(bar, slots, u.now, Midnight(u.now));
    StartOfFirst(bar, slots, u.now, Midnight(u.now));
    if FirstRun(bar, slots, u.now, Midnight(u.now)).Some? {
      var x: nat, y: nat :| IsFirstLongRun(slots, bar.threshold, bar.minLength, u.now, Midnight(u.now), x, y)
                            && FirstRun(bar, slots, u.now, Midnight(u.now)) == Some(Report(slots, x, y));
      assert IsBarRun(bar, slots, u, x, y);
    }
  }

  lemma StartOfFirst(bar: Bar, slots: seq<PriceSlot>, now: Time, deadline: Time)
    requires Timeline(slots)
    ensures forall p: nat, q: nat :: IsFirstLongRun(slots, bar.threshold, bar.minLength, now, deadline, p, q) ==>
              && p < q <= |slots| && FirstRun(bar, slots, now, deadline).Some?
              && FirstRun(bar, slots, now, deadline).value.from == slots[p].from
  {
    hide FirstRun, Timeline, IsFirstLongRun, IsLongRun;
    FirstRunInPrices(bar, slots, now, deadline);
    RunsAreLong(bar, slots, now, deadline);
    forall p: nat, q: nat | IsFirstLongRun(slots, bar.threshold, bar.minLength, now, deadline, p, q)
      ensures FirstRun(bar, slots, now, deadline).Some?
      ensures FirstRun(bar, slots, now, deadline).value.from == slots[p].from
    {
      var x: nat, y: nat :| IsFirstLongRun(slots, bar.threshold, bar.minLength, now, deadline, x, y)
                            && FirstRun(bar, slots, now, deadline) == Some(Report(slots, x, y));
      SameFirst(bar, slots, now, deadline, p, q, x, y);
    }
  }

  lemma RunsAreLong(bar: Bar, slots: seq<PriceSlot>, now: Time, deadline: Time)
    ensures forall p: nat, q: nat :: IsFirstLongRun(slots, bar.threshold, bar.minLength, now, deadline, p, q) ==>
              p < q <= |slots| && IsLongRun(slots, bar.threshold, bar.minLength, now, deadline, p, q)
  {
  }

  lemma SameFirst(bar: Bar, slots: seq<PriceSlot>, now: Time, deadline: Time, p: nat, q: nat, p': nat, q': nat)
    requires IsFirstLongRun(slots, bar.threshold, bar.minLength, now, deadline, p, q)
    requires IsFirstLongRun(slots, bar.threshold, bar.minLength, now, deadline, p', q')
    ensures p == p'
  {
    hide IsLongRun;
  }
}
