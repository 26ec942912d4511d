/** Alerts about runs of extreme prices (announcer.go). */
module PriceAnnouncer {
  import opened Options
  import opened Sums
  import opened PriceSlots
  import opened PriceIndexes

  /** The zero time.Time, which no price slot starts at. */
  const ZERO_TIME: Time := 0

  datatype Config = Config(spikeMultiplier: real, minExtremeDuration: Duration)

  datatype RunKind = ExtremePrices | NegativePrices

  datatype ExtremeRun = ExtremeRun(from: Time, till: Time, kind: RunKind)

  datatype Alert = Alert(run: ExtremeRun, hours: int)

  /** What makes a slot extreme and a run of them worth an alert. */
  datatype Bar = Bar(threshold: real, minLength: Duration) {
    predicate Extreme(s: PriceSlot) {
      s.price < 0.0 || s.price > threshold
    }
  }

  function BarOf(idx: PriceIndex, cfg: Config): Bar {
    Bar(idx.median * cfg.spikeMultiplier, cfg.minExtremeDuration)
  }

  // ---- Which run is reported ----

  predicate IsConsidered(s: PriceSlot, now: Time, deadline: Time) {
    s.till > now && s.from <= deadline
  }

  /** The slots firstExtremeRun looks at: not ended at now, starting by the deadline. */
  function Considered(slots: seq<PriceSlot>, now: Time, deadline: Time): seq<PriceSlot> {
    if slots == [] then []
    else
      var s := slots[|slots| - 1];
      Considered(slots[..|slots| - 1], now, deadline) + if IsConsidered(s, now, deadline) then [s] else []
  }

  /** A maximal block of extreme slots. */
  ghost predicate IsRun(bar: Bar, c: seq<PriceSlot>, p: nat, q: nat) {
    && p < q <= |c|
    && (forall i :: p <= i < q ==> bar.Extreme(c[i]))
    && (p > 0 ==> !bar.Extreme(c[p - 1]))
    && (q < |c| ==> !bar.Extreme(c[q]))
  }

  ghost predicate Qualifies(bar: Bar, c: seq<PriceSlot>, p: nat, q: nat) {
    IsRun(bar, c, p, q) && TotalLength(c[p..q]) >= bar.minLength
  }

  ghost predicate IsFirstRun(bar: Bar, c: seq<PriceSlot>, p: nat, q: nat) {
    Qualifies(bar, c, p, q) && forall p': nat, q': nat :: Qualifies(bar, c, p', q') ==> p <= p'
  }

  function RunOf(c: seq<PriceSlot>, p: nat, q: nat): ExtremeRun
    requires p < q <= |c|
  {
    ExtremeRun(c[p].from, c[p].from + TotalLength(c[p..q]), KindOf(c[p]))
  }

  /** The first maximal run of considered extreme slots that is long enough. */
  ghost function FirstRun(bar: Bar, slots: seq<PriceSlot>, now: Time, deadline: Time): Option<ExtremeRun> {
    var c := Considered(slots, now, deadline);
    if exists p: nat, q: nat :: IsFirstRun(bar, c, p, q) then
      var p: nat, q: nat :| IsFirstRun(bar, c, p, q);
      Some(RunOf(c, p, q))
    else
      None
  }

  lemma FirstRunIsUnique(bar: Bar, slots: seq<PriceSlot>, now: Time, deadline: Time, p: nat, q: nat)
    requires IsFirstRun(bar, Considered(slots, now, deadline), p, q)
    ensures FirstRun(bar, slots, now, deadline) == Some(RunOf(Considered(slots, now, deadline), p, q))
  {
    var c := Considered(slots, now, deadline);
    forall p': nat, q': nat | IsFirstRun(bar, c, p', q') ensures p' == p && q' == q {
      assert p' <= p && p <= p';
      assert !(q' < q) && !(q < q');
    }
  }

  lemma {:induction false} ConsideredPrefix(slots: seq<PriceSlot>, i: nat, now: Time, deadline: Time)
    requires i <= |slots|
    ensures Considered(slots[..i], now, deadline) <= Considered(slots, now, deadline)
  {
    if i == |slots| {
      assert slots[..i] == slots;
    } else {
      ConsideredPrefix(slots[..|slots| - 1], i, now, deadline);
      assert slots[..|slots| - 1][..i] == slots[..i];
    }
  }

  /** The extreme slots from start up to n, with nothing extreme before start. */
  ghost predicate IsOpenRun(bar: Bar, c: seq<PriceSlot>, start: nat, n: nat) {
    && start < n <= |c|
    && (forall i :: start <= i < n ==> bar.Extreme(c[i]))
    && (start > 0 ==> !bar.Extreme(c[start - 1]))
  }

  /** No qualifying run has ended before n, and the open run, if any, is the one that reaches n. */
  ghost predicate ScannedTo(bar: Bar, c: seq<PriceSlot>, n: nat, inRun: bool, start: nat) {
    && n <= |c|
    && (forall p: nat, q: nat :: Qualifies(bar, c, p, q) ==> q >= n)
    && (inRun ==> IsOpenRun(bar, c, start, n))
    && (!inRun && n > 0 ==> !bar.Extreme(c[n - 1]))
  }

  lemma ScanExtreme(bar: Bar, c: seq<PriceSlot>, n: nat, inRun: bool, start: nat)
    requires ScannedTo(bar, c, n, inRun, start)
    requires n < |c| && bar.Extreme(c[n])
    ensures ScannedTo(bar, c, n + 1, true, if inRun then start else n)
  {
  }

  /** An open run that is long enough when it ends is the first that qualifies. */
  lemma RunEnds(bar: Bar, slots: seq<PriceSlot>, now: Time, deadline: Time, n: nat, start: nat)
    requires var c := Considered(slots, now, deadline);
             && ScannedTo(bar, c, n, true, start) && (n < |c| ==> !bar.Extreme(c[n]))
             && TotalLength(c[start..n]) >= bar.minLength
    ensures FirstRun(bar, slots, now, deadline) == Some(RunOf(Considered(slots, now, deadline), start, n))
  {
    assert IsRun(bar, Considered(slots, now, deadline), start, n);
    FirstRunIsUnique(bar, slots, now, deadline, start, n);
  }

  /** Past a slot that is not extreme, or past the last slot, nothing that ends there qualifies. */
  lemma NothingEndsHere(bar: Bar, c: seq<PriceSlot>, n: nat, inRun: bool, start: nat)
    requires ScannedTo(bar, c, n, inRun, start)
    requires inRun ==> TotalLength(c[start..n]) < bar.minLength
    ensures forall p: nat, q: nat :: Qualifies(bar, c, p, q) ==> q >= n + 1
  {
    forall p: nat, q: nat | Qualifies(bar, c, p, q) ensures q != n {
      if inRun && q == n {
        OpenRunIsTheRun(bar, c, start, n, p);
        assert false;
      }
    }
  }

  lemma OpenRunIsTheRun(bar: Bar, c: seq<PriceSlot>, start: nat, n: nat, p: nat)
    requires IsOpenRun(bar, c, start, n) && IsRun(bar, c, p, n)
    ensures p == start
  {
  }

  lemma ConsideredStep(slots: seq<PriceSlot>, i: nat, now: Time, deadline: Time, n: nat)
    requires i < |slots| && n == |Considered(slots[..i], now, deadline)|
    ensures n <= |Considered(slots, now, deadline)|
    ensures !IsConsidered(slots[i], now, deadline) ==> n == |Considered(slots[..i + 1], now, deadline)|
    ensures IsConsidered(slots[i], now, deadline) ==>
              && n + 1 == |Considered(slots[..i + 1], now, deadline)| <= |Considered(slots, now, deadline)|
              && Considered(slots, now, deadline)[n] == slots[i]
  {
    assert slots[..i + 1][..i] == slots[..i];
    ConsideredPrefix(slots, i + 1, now, deadline);
    assert IsConsidered(slots[i], now, deadline) ==> Considered(slots[..i + 1], now, deadline)[n] == slots[i];
  }

  lemma LengthStep(c: seq<PriceSlot>, start: nat, n: nat)
    requires start <= n < |c|
    ensures TotalLength(c[start..n + 1]) == TotalLength(c[start..n]) + Length(c[n])
  {
    assert c[start..n + 1][..n - start] == c[start..n];
  }

  function KindOf(s: PriceSlot): RunKind {
    if s.price < 0.0 then NegativePrices else ExtremePrices
  }

  method FirstExtremeRun(idx: PriceIndex, cfg: Config, now: Time, deadline: Time) returns (r: Option<ExtremeRun>)
    ensures r == FirstRun(BarOf(idx, cfg), idx.slots, now, deadline)
  {
    hide FirstRun, ScannedTo, IsFirstRun, Considered, TotalLength;
    ghost var c, bar := Considered(idx.slots, now, deadline), BarOf(idx, cfg);
    var runFrom, runDur, runKind, inRun := ZERO_TIME, 0, ExtremePrices, false;
    ghost var n, start: nat := 0, 0;
    StartScan(bar, c, idx.slots, now, deadline);
    for i := 0 to |idx.slots|
      invariant n == |Considered(idx.slots[..i], now, deadline)| <= |c|
      invariant ScannedTo(bar, c, n, inRun, start)
      invariant inRun ==> start < n && runFrom == c[start].from && runDur == TotalLength(c[start..n])
      invariant inRun ==> runKind == KindOf(c[start])
    {
      var s := idx.slots[i];
      ConsideredStep(idx.slots, i, now, deadline, n);
      if !(s.till > now) || s.from > deadline {
        continue;
      }
      if idx.IsExtreme(s, cfg.spikeMultiplier) {
        var slotKind := ExtremePrices;
        if s.price < 0.0 {
          slotKind := NegativePrices;
        }
        ScanExtreme(bar, c, n, inRun, start);
        if !inRun {
          EmptyLength(c[n..n]);
          runFrom, runKind, inRun, runDur := s.from, slotKind, true, 0;
          start := n;
        }
        LengthStep(c, start, n);
        runDur := runDur + (s.till - s.from);
      } else {
        if inRun && runDur >= cfg.minExtremeDuration {
          RunEnds(bar, idx.slots, now, deadline, n, start);
          return Some(ExtremeRun(runFrom, runFrom + runDur, runKind));
        }
        ScanCalm(bar, c, n, inRun, start);
        inRun, runDur := false, 0;
      }
      n := n + 1;
    }
    assert idx.slots[..|idx.slots|] == idx.slots;
    if inRun && runDur >= cfg.minExtremeDuration {
      RunEnds(bar, idx.slots, now, deadline, n, start);
      return Some(ExtremeRun(runFrom, runFrom + runDur, runKind));
    }
    NoRunFound(bar, idx.slots, now, deadline, inRun, start);
    r := None;
  }

  lemma EmptyLength(c: seq<PriceSlot>)
    requires c == []
    ensures TotalLength(c) == 0
  {
  }

  lemma StartScan(bar: Bar, c: seq<PriceSlot>, slots: seq<PriceSlot>, now: Time, deadline: Time)
    ensures ScannedTo(bar, c, 0, false, 0) && |Considered(slots[..0], now, deadline)| == 0
  {
  }

  lemma ScanCalm(bar: Bar, c: seq<PriceSlot>, n: nat, inRun: bool, start: nat)
    requires ScannedTo(bar, c, n, inRun, start)
    requires n < |c| && !bar.Extreme(c[n])
    requires inRun ==> TotalLength(c[start..n]) < bar.minLength
    ensures ScannedTo(bar, c, n + 1, false, start)
  {
    NothingEndsHere(bar, c, n, inRun, start);
  }

  lemma NoRunFound(bar: Bar, slots: seq<PriceSlot>, now: Time, deadline: Time, inRun: bool, start: nat)
    requires var c := Considered(slots, now, deadline);
             && ScannedTo(bar, c, |c|, inRun, start)
             && (inRun ==> TotalLength(c[start..|c|]) < bar.minLength)
    ensures FirstRun(bar, slots, now, deadline) == None
  {
    var c := Considered(slots, now, deadline);
    NothingEndsHere(bar, c, |c|, inRun, start);
  }

  // ---- The start never moves back ----

  lemma {:induction false} ConsideredFilter(slots: seq<PriceSlot>, now: Time, deadline: Time, a: nat, b: nat)
    requires a <= b <= |slots|
    requires forall i :: 0 <= i < |slots| ==> (a <= i < b <==> IsConsidered(slots[i], now, deadline))
    ensures Considered(slots, now, deadline) == slots[a..b]
  {
    if slots != [] {
      var n := |slots| - 1;
      if b == |slots| {
        ConsideredFilter(slots[..n], now, deadline, if a < b then a else n, n);
        assert a < b ==> slots[a..b] == slots[..n][a..n] + [slots[n]];
      } else {
        var init := slots[..n];
        ConsideredFilter(init, now, deadline, a, b);
        forall k | 0 <= k < b - a ensures init[a..b][k] == slots[a..b][k] {
          assert init[a + k] == slots[a + k];
        }
      }
    }
  }

  /** On a timeline the considered slots are a block of the index. */
  lemma ConsideredIsBlock(slots: seq<PriceSlot>, now: Time, deadline: Time) returns (a: nat, b: nat)
    requires Timeline(slots)
    ensures a <= b <= |slots| && Considered(slots, now, deadline) == slots[a..b]
    ensures forall i :: 0 <= i < |slots| ==> (a <= i < b <==> IsConsidered(slots[i], now, deadline))
  {
    a := 0;
    while a < |slots| && slots[a].till <= now
      invariant a <= |slots|
      invariant forall i :: 0 <= i < a ==> slots[i].till <= now
    {
      a := a + 1;
    }
    b := a;
    while b < |slots| && slots[b].from <= deadline
      invariant a <= b <= |slots|
      invariant forall i :: a <= i < b ==> slots[i].from <= deadline
    {
      b := b + 1;
    }
    ConsideredFilter(slots, now, deadline, a, b);
  }

  lemma {:induction false} LengthAppend(s: seq<PriceSlot>, t: seq<PriceSlot>)
    ensures TotalLength(s + t) == TotalLength(s) + TotalLength(t)
  {
    if t == [] {
      assert s + t == s;
    } else {
      assert (s + t)[..|s + t| - 1] == s + t[..|t| - 1];
      LengthAppend(s, t[..|t| - 1]);
    }
  }

  lemma {:induction false} LengthNonNegative(s: seq<PriceSlot>)
    requires forall x :: x in s ==> Length(x) >= 0
    ensures TotalLength(s) >= 0
  {
    if s != [] {
      LengthNonNegative(s[..|s| - 1]);
    }
  }

  lemma LongerBlock(c: seq<PriceSlot>, p: nat, q: nat, p': nat, q': nat)
    requires Timeline(c) && p' <= p <= q <= q' <= |c|
    ensures TotalLength(c[p..q]) <= TotalLength(c[p'..q'])
  {
    assert c[p'..q'] == c[p'..p] + c[p..q] + c[q..q'];
    LengthAppend(c[p'..p] + c[p..q], c[q..q']);
    LengthAppend(c[p'..p], c[p..q]);
    LengthNonNegative(c[p'..p]);
    LengthNonNegative(c[q..q']);
  }

  /** Every extreme slot lies in a maximal run. */
  lemma RunAround(bar: Bar, c: seq<PriceSlot>, i: nat) returns (p: nat, q: nat)
    requires i < |c| && bar.Extreme(c[i])
    ensures IsRun(bar, c, p, q) && p <= i < q
  {
    p, q := i, i + 1;
    while p > 0 && bar.Extreme(c[p - 1])
      invariant p <= i
      invariant forall j :: p <= j <= i ==> bar.Extreme(c[j])
    {
      p := p - 1;
    }
    while q < |c| && bar.Extreme(c[q])
      invariant i < q <= |c|
      invariant forall j :: p <= j < q ==> bar.Extreme(c[j])
    {
      q := q + 1;
    }
  }

  lemma {:induction false} FirstRunExists(bar: Bar, c: seq<PriceSlot>, p: nat, q: nat)
    requires Qualifies(bar, c, p, q)
    ensures exists p': nat, q': nat :: IsFirstRun(bar, c, p', q')
    decreases p
  {
    if p': nat, q': nat :| Qualifies(bar, c, p', q') && p' < p {
      FirstRunExists(bar, c, p', q');
    } else {
      assert IsFirstRun(bar, c, p, q);
    }
  }

  lemma RunInSlots(bar: Bar, slots: seq<PriceSlot>, a: nat, b: nat, p: nat, q: nat)
    requires a <= p && a <= q && a <= b <= |slots| && IsFirstRun(bar, slots[a..b], p - a, q - a)
    ensures p < q <= b && slots[a..b][p - a..q - a] == slots[p..q] && slots[a..b][p - a] == slots[p]
    ensures forall i :: p <= i < q ==> bar.Extreme(slots[i])
    ensures a < p ==> !bar.Extreme(slots[p - 1])
    ensures TotalLength(slots[p..q]) >= bar.minLength
  {
    var c := slots[a..b];
    SubSlice(slots, a, b, p, q);
    forall i | p <= i < q ensures bar.Extreme(slots[i]) {
      assert c[i - a] == slots[i];
    }
    assert a < p ==> c[p - a - 1] == slots[p - 1];
  }

  /** What the first run of a timeline looks like in terms of the indexes of the slots. */
  lemma FirstRunInSlots(bar: Bar, slots: seq<PriceSlot>, now: Time, deadline: Time) returns (a: nat, b: nat, p: nat, q: nat)
    requires Timeline(slots) && FirstRun(bar, slots, now, deadline).Some?
    ensures a <= p < q <= b <= |slots| && Considered(slots, now, deadline) == slots[a..b]
    ensures forall i :: 0 <= i < |slots| ==> (a <= i < b <==> IsConsidered(slots[i], now, deadline))
    ensures IsFirstRun(bar, slots[a..b], p - a, q - a)
    ensures forall i :: p <= i < q ==> bar.Extreme(slots[i])
    ensures a < p ==> !bar.Extreme(slots[p - 1])
    ensures TotalLength(slots[p..q]) >= bar.minLength
    ensures FirstRun(bar, slots, now, deadline).value.from == slots[p].from
  {
    hide IsFirstRun, TotalLength, IsConsidered;
    a, b := ConsideredIsBlock(slots, now, deadline);
    var c := slots[a..b];
    var p': nat, q': nat :| IsFirstRun(bar, c, p', q');
    FirstRunIsUnique(bar, slots, now, deadline, p', q');
    p, q := a + p', a + q';
    RunInSlots(bar, slots, a, b, p, q);
  }

  /** A long enough block of extreme slots in view is part of a run that qualifies. */
  lemma BlockQualifies(bar: Bar, slots: seq<PriceSlot>, a: nat, b: nat, p: nat, q: nat) returns (p': nat, q': nat)
    requires Timeline(slots) && a <= p < q <= b <= |slots|
    requires (forall i :: p <= i < q ==> bar.Extreme(slots[i])) && TotalLength(slots[p..q]) >= bar.minLength
    ensures p' <= p - a && q - a <= q' && Qualifies(bar, slots[a..b], p', q')
  {
    hide TotalLength;
    var c := slots[a..b];
    assert c[p - a] == slots[p];
    BlockIsTimeline(slots, a, b);
    p', q' := RunAround(bar, c, p - a);
    RunReaches(bar, slots, a, b, p, q, p', q');
    LongerBlock(c, p - a, q - a, p', q');
    SubSlice(slots, a, b, p, q);
  }

  lemma BlockIsTimeline(slots: seq<PriceSlot>, p: nat, q: nat)
    requires Timeline(slots) && p <= q <= |slots|
    ensures Timeline(slots[p..q])
  {
  }

  lemma RunReaches(bar: Bar, slots: seq<PriceSlot>, a: nat, b: nat, p: nat, q: nat, p': nat, q': nat)
    requires a <= p < q <= b <= |slots| && (forall i :: p <= i < q ==> bar.Extreme(slots[i]))
    requires IsRun(bar, slots[a..b], p', q') && p' <= p - a < q'
    ensures q - a <= q'
  {
    var c := slots[a..b];
    assert q' < |c| ==> c[q'] == slots[a + q'];
  }

  /** As time passes over fixed prices, the start of the reported run never moves back. */
  lemma StartNeverDecreases(bar: Bar, slots: seq<PriceSlot>, now: Time, deadline: Time, now': Time, deadline': Time)
    requires Timeline(slots) && now <= now' && deadline <= deadline'
    requires FirstRun(bar, slots, now, deadline).Some? && FirstRun(bar, slots, now', deadline').Some?
    ensures FirstRun(bar, slots, now, deadline).value.from <= FirstRun(bar, slots, now', deadline').value.from
  {
    var a, b, p, q := FirstRunInSlots(bar, slots, now, deadline);
    var a', b', p', q' := FirstRunInSlots(bar, slots, now', deadline');
    if p' < p {
      assert slots[p'].from <= slots[p].from;
      assert IsConsidered(slots[p'], now, deadline);
      EarlierRunQualifiesToo(bar, slots, a, b, p, q, p', q');
    } else {
      assert p < p' ==> slots[p].till <= slots[p'].from;
    }
  }

  /** A long enough extreme block starting before the first qualifying run, and in view, contradicts its being first. */
  lemma EarlierRunQualifiesToo(bar: Bar, slots: seq<PriceSlot>, a: nat, b: nat, p: nat, q: nat, p': nat, q': nat)
    requires Timeline(slots) && a <= p < q <= b <= |slots| && IsFirstRun(bar, slots[a..b], p - a, q - a)
    requires a <= p' < q' <= |slots| && (forall i :: p' <= i < q' ==> bar.Extreme(slots[i]))
    requires TotalLength(slots[p'..q']) >= bar.minLength
    ensures p <= p'
  {
    if p' < p {
      assert slots[a..b][p - a - 1] == slots[p - 1];
      var x, y := BlockQualifies(bar, slots, a, b, p', q');
      assert false;
    }
  }

  lemma StillInView(slots: seq<PriceSlot>, now: Time, deadline: Time, now': Time, deadline': Time, p: nat, q: nat)
    requires Timeline(slots) && now <= now' && deadline <= deadline' && p < q <= |slots| && slots[p].till > now'
    requires forall j :: p <= j < q ==> IsConsidered(slots[j], now, deadline)
    ensures forall j :: p <= j < q ==> IsConsidered(slots[j], now', deadline')
  {
    forall j | p <= j < q ensures IsConsidered(slots[j], now', deadline') {
      assert p < j ==> slots[p].till <= slots[j].from < slots[j].till;
    }
  }

  lemma FirstIsNoLater(bar: Bar, slots: seq<PriceSlot>, now: Time, deadline: Time, a: nat, b: nat, x: nat, y: nat)
    requires Timeline(slots) && a <= b <= |slots| && Considered(slots, now, deadline) == slots[a..b]
    requires Qualifies(bar, slots[a..b], x, y)
    ensures FirstRun(bar, slots, now, deadline).Some?
    ensures a + x < b && FirstRun(bar, slots, now, deadline).value.from <= slots[a + x].from
  {
    hide FirstRun, TotalLength, Considered, Timeline;
    FirstRunExists(bar, slots[a..b], x, y);
    var u: nat, v: nat :| IsFirstRun(bar, slots[a..b], u, v);
    FirstRunIsUnique(bar, slots, now, deadline, u, v);
    assert u <= x && slots[a..b][u] == slots[a + u];
    StartsAscend(slots, a + u, a + x);
  }

  lemma StillReported(bar: Bar, slots: seq<PriceSlot>, now: Time, deadline: Time, now': Time, deadline': Time, i: nat)
    requires Timeline(slots) && now <= now' && deadline <= deadline'
    requires FirstRun(bar, slots, now, deadline).Some?
    requires i < |slots| && slots[i].from == FirstRun(bar, slots, now, deadline).value.from && slots[i].till > now'
    ensures FirstRun(bar, slots, now', deadline').Some?
    ensures FirstRun(bar, slots, now', deadline').value.from <= slots[i].from
  {
    hide *;
    var q := LeadingBlock(bar, slots, now, deadline, i);
    StillInView(slots, now, deadline, now', deadline', i, q);
    var a, b := ConsideredIsBlock(slots, now', deadline');
    assert IsConsidered(slots[i], now', deadline') && IsConsidered(slots[q - 1], now', deadline');
    var x, y := BlockQualifies(bar, slots, a, b, i, q);
    FirstIsNoLater(bar, slots, now', deadline', a, b, x, y);
    StartsAscend(slots, a + x, i);
  }

  lemma LeadingBlock(bar: Bar, slots: seq<PriceSlot>, now: Time, deadline: Time, i: nat) returns (q: nat)
    requires Timeline(slots) && FirstRun(bar, slots, now, deadline).Some?
    requires i < |slots| && slots[i].from == FirstRun(bar, slots, now, deadline).value.from
    ensures i < q <= |slots| && TotalLength(slots[i..q]) >= bar.minLength
    ensures forall j :: i <= j < q ==> IsConsidered(slots[j], now, deadline)
    ensures forall j :: i <= j < q ==> bar.Extreme(slots[j])
  {
    hide FirstRun, TotalLength, IsFirstRun, IsConsidered, Considered;
    var a, b, p;
    a, b, p, q := FirstRunInSlots(bar, slots, now, deadline);
    SameFromSameSlot(slots, i, p);
  }

  /**
   * A later update reports the same start exactly while the slot the run started with has not ended: after
   * that, what remains of the run counts as a new one.
   */
  lemma SameStartWhileLeadingSlotLasts(bar: Bar, slots: seq<PriceSlot>, now: Time, deadline: Time, now': Time,
                                       deadline': Time, i: nat)
    requires Timeline(slots) && now <= now' && deadline <= deadline'
    requires FirstRun(bar, slots, now, deadline).Some?
    requires i < |slots| && slots[i].from == FirstRun(bar, slots, now, deadline).value.from
    ensures slots[i].till > now' <==>
            FirstRun(bar, slots, now', deadline').Some?
            && FirstRun(bar, slots, now', deadline').value.from == slots[i].from
  {
    hide FirstRun;
    if slots[i].till > now' {
      StillReported(bar, slots, now, deadline, now', deadline', i);
      StartNeverDecreases(bar, slots, now, deadline, now', deadline');
    } else if FirstRun(bar, slots, now', deadline').Some? {
      var a', b', p', q' := FirstRunInSlots(bar, slots, now', deadline');
      assert IsConsidered(slots[p'], now', deadline');
    }
  }

  lemma SameFromSameSlot(slots: seq<PriceSlot>, i: nat, j: nat)
    requires Timeline(slots) && i < |slots| && j < |slots| && slots[i].from == slots[j].from
    ensures i == j
  {
  }

  // ---- The announcer and its runs ----

  /** The end of the day of now, in whole days since the zero time. */
  function Midnight(now: Time): Time {
    now - now % DAY + DAY
  }

  lemma MidnightAscends(now: Time, now': Time)
    requires now <= now'
    ensures Midnight(now) <= Midnight(now')
  {
    assert now / DAY <= now' / DAY;
  }

  /** What one price update meets: the time, whether night or away mode suppresses it, whether the notifier accepts. */
  datatype Update = Update(now: Time, suppressed: bool, accepted: bool)

  /** The run alerted by one update, given the start of the run alerted last. */
  ghost function Delivered(bar: Bar, slots: seq<PriceSlot>, last: Time, u: Update): Option<ExtremeRun> {
    var r := FirstRun(bar, slots, u.now, Midnight(u.now));
    if u.suppressed || slots == [] || r.None? || r.value.from == last || !u.accepted then None else r
  }

  class Announcer {
    const cfg: Config
    var lastAlertedRunFrom: Time

    constructor (cfg: Config)
      ensures this.cfg == cfg && lastAlertedRunFrom == ZERO_TIME
    {
      this.cfg := cfg;
      lastAlertedRunFrom := ZERO_TIME;
    }

    method HandlePriceUpdate(idx: PriceIndex, u: Update) returns (alert: Option<Alert>)
      modifies this
      ensures var d := Delivered(BarOf(idx, cfg), idx.slots, old(lastAlertedRunFrom), u);
              && alert.Some? == d.Some?
              && (d.Some? ==> alert.value.run == d.value && lastAlertedRunFrom == d.value.from)
              && (d.None? ==> lastAlertedRunFrom == old(lastAlertedRunFrom))
      ensures alert.Some? ==>
                var length := alert.value.run.till - alert.value.run.from;
                if length < 2 * 3_600_000_000_000 then alert.value.hours == 1
                else alert.value.hours * 3_600_000_000_000 <= length < (alert.value.hours + 1) * 3_600_000_000_000
    {
      hide FirstRun;
      if u.suppressed {
        return None;
      }
      if |idx.slots| == 0 {
        return None;
      }
      var midnight := u.now - u.now % DAY + DAY;
      var r := FirstExtremeRun(idx, cfg, u.now, midnight);
      if r.None? {
        return None;
      }
      if r.value.from == lastAlertedRunFrom {
        return None;
      }
      var dur := r.value.till - r.value.from;
      var hours := dur / HOUR;
      if hours < 1 {
        hours := 1;
      }
      if !u.accepted {
        return None;
      }
      lastAlertedRunFrom := r.value.from;
      alert := Some(Alert(r.value, hours));
    }
  }

  /** The starts of the alerts delivered over a run of updates with fixed prices. */
  ghost function AlertStarts(bar: Bar, slots: seq<PriceSlot>, last: Time, us: seq<Update>): seq<Time>
    decreases |us|
  {
    if us == [] then []
    else
      var d := Delivered(bar, slots, last, us[0]);
      if d.None? then AlertStarts(bar, slots, last, us[1..])
      else [d.value.from] + AlertStarts(bar, slots, d.value.from, us[1..])
  }

  /** The same announcer with an unbounded memory of everything it has alerted. */
  ghost function AlertStartsRemembering(bar: Bar, slots: seq<PriceSlot>, seen: set<Time>, us: seq<Update>): seq<Time>
    decreases |us|
  {
    if us == [] then []
    else
      var r := FirstRun(bar, slots, us[0].now, Midnight(us[0].now));
      if us[0].suppressed || slots == [] || r.None? || r.value.from in seen || !us[0].accepted
      then AlertStartsRemembering(bar, slots, seen, us[1..])
      else [r.value.from] + AlertStartsRemembering(bar, slots, seen + {r.value.from}, us[1..])
  }

  ghost predicate InOrder(us: seq<Update>) {
    forall i, j :: 0 <= i < j < |us| ==> us[i].now <= us[j].now
  }

  /** Every later update that finds a run finds one starting at t or after. */
  ghost predicate StartsFrom(bar: Bar, slots: seq<PriceSlot>, t: Time, us: seq<Update>) {
    forall i :: 0 <= i < |us| ==>
                  var r := FirstRun(bar, slots, us[i].now, Midnight(us[i].now));
                  r.Some? ==> t <= r.value.from
  }

  lemma LaterStartsFrom(bar: Bar, slots: seq<PriceSlot>, us: seq<Update>)
    requires Timeline(slots) && InOrder(us) && us != []
    requires FirstRun(bar, slots, us[0].now, Midnight(us[0].now)).Some?
    ensures StartsFrom(bar, slots, FirstRun(bar, slots, us[0].now, Midnight(us[0].now)).value.from, us[1..])
  {
    hide FirstRun;
    forall i | 0 <= i < |us[1..]|
      ensures var r := FirstRun(bar, slots, us[1..][i].now, Midnight(us[1..][i].now));
              r.Some? ==> FirstRun(bar, slots, us[0].now, Midnight(us[0].now)).value.from <= r.value.from
    {
      assert us[1..][i] == us[i + 1];
      MidnightAscends(us[0].now, us[i + 1].now);
      if FirstRun(bar, slots, us[i + 1].now, Midnight(us[i + 1].now)).Some? {
        StartNeverDecreases(bar, slots, us[0].now, Midnight(us[0].now), us[i + 1].now, Midnight(us[i + 1].now));
      }
    }
  }

  lemma {:induction false} AlertsAfter(bar: Bar, slots: seq<PriceSlot>, last: Time, us: seq<Update>)
    requires Timeline(slots) && InOrder(us) && StartsFrom(bar, slots, last, us)
    ensures forall i :: 0 <= i < |AlertStarts(bar, slots, last, us)| ==> last < AlertStarts(bar, slots, last, us)[i]
    ensures Ascending(AlertStarts(bar, slots, last, us))
    decreases |us|
  {
    hide FirstRun, Timeline;
    if us != [] {
      var d := Delivered(bar, slots, last, us[0]);
      forall i | 0 <= i < |us[1..]| ensures us[1..][i] == us[i + 1] {
      }
      if d.None? {
        AlertsAfter(bar, slots, last, us[1..]);
      } else {
        LaterStartsFrom(bar, slots, us);
        AlertsAfter(bar, slots, d.value.from, us[1..]);
      }
    }
  }

  ghost predicate Ascending(ts: seq<Time>) {
    forall i, j :: 0 <= i < j < |ts| ==> ts[i] < ts[j]
  }

  /** Over any run of updates in time order the alerts start later and later, so none is repeated. */
  lemma {:induction false} AlertsStrictlyAscend(bar: Bar, slots: seq<PriceSlot>, last: Time, us: seq<Update>)
    requires Timeline(slots) && InOrder(us)
    ensures Ascending(AlertStarts(bar, slots, last, us))
    decreases |us|
  {
    hide FirstRun, Timeline;
    if us != [] {
      var d := Delivered(bar, slots, last, us[0]);
      forall i | 0 <= i < |us[1..]| ensures us[1..][i] == us[i + 1] {
      }
      if d.None? {
        AlertsStrictlyAscend(bar, slots, last, us[1..]);
      } else {
        LaterStartsFrom(bar, slots, us);
        AlertsAfter(bar, slots, d.value.from, us[1..]);
      }
    }
  }

  /** Remembering only the last start behaves exactly like remembering every start. */
  lemma {:induction false} LastStartIsEnough(bar: Bar, slots: seq<PriceSlot>, last: Time, seen: set<Time>, us: seq<Update>)
    requires Timeline(slots) && InOrder(us) && StartsFrom(bar, slots, last, us)
    requires last in seen && forall t :: t in seen ==> t <= last
    ensures AlertStarts(bar, slots, last, us) == AlertStartsRemembering(bar, slots, seen, us)
    decreases |us|
  {
    hide FirstRun, Timeline;
    if us != [] {
      var d := Delivered(bar, slots, last, us[0]);
      forall i | 0 <= i < |us[1..]| ensures us[1..][i] == us[i + 1] {
      }
      if d.None? {
        LastStartIsEnough(bar, slots, last, seen, us[1..]);
      } else {
        LaterStartsFrom(bar, slots, us);
        LastStartIsEnough(bar, slots, d.value.from, seen + {d.value.from}, us[1..]);
      }
    }
  }

  lemma AllStartAfterZero(bar: Bar, slots: seq<PriceSlot>, us: seq<Update>)
    requires Timeline(slots) && forall s :: s in slots ==> s.from > ZERO_TIME
    ensures StartsFrom(bar, slots, ZERO_TIME, us)
  {
    hide FirstRun;
    forall i | 0 <= i < |us| && FirstRun(bar, slots, us[i].now, Midnight(us[i].now)).Some?
      ensures ZERO_TIME <= FirstRun(bar, slots, us[i].now, Midnight(us[i].now)).value.from
    {
      var a, b, p, q := FirstRunInSlots(bar, slots, us[i].now, Midnight(us[i].now));
      assert slots[p] in slots;
    }
  }

  /** In particular from the start, for slots that begin after the zero time. */
  lemma LastStartIsEnoughFromTheStart(bar: Bar, slots: seq<PriceSlot>, us: seq<Update>)
    requires Timeline(slots) && InOrder(us) && forall s :: s in slots ==> s.from > ZERO_TIME
    ensures AlertStarts(bar, slots, ZERO_TIME, us) == AlertStartsRemembering(bar, slots, {ZERO_TIME}, us)
  {
    AllStartAfterZero(bar, slots, us);
    LastStartIsEnough(bar, slots, ZERO_TIME, {ZERO_TIME}, us);
  }

  // ---- One run can be alerted twice ----

  function NegativeSlot(hour: nat): PriceSlot {
    PriceSlot(DAY + hour * HOUR, DAY + (hour + 1) * HOUR, -1.0)
  }

  const TWO_HOURS := [NegativeSlot(0), NegativeSlot(1)]

  /** What the program asks for on these slots: three times their median, for an hour. */
  const EXAMPLE_BAR := Bar(-3.0, HOUR)

  lemma ReportsFrom(now: Time, i: nat)
    requires i < 2 && now == DAY + i * HOUR
    ensures FirstRun(EXAMPLE_BAR, TWO_HOURS, now, Midnight(now)).Some?
    ensures FirstRun(EXAMPLE_BAR, TWO_HOURS, now, Midnight(now)).value.from == TWO_HOURS[i].from
  {
    assert Midnight(now) == 2 * DAY;
    ConsideredFilter(TWO_HOURS, now, 2 * DAY, i, 2);
    var c := TWO_HOURS[i..2];
    assert c[0..|c|] == c;
    LengthAppend(c[..|c| - 1], [c[|c| - 1]]);
    assert c == c[..|c| - 1] + [c[|c| - 1]];
    LengthNonNegative(c[..|c| - 1]);
    assert [c[|c| - 1]][..0] == [];
    assert TotalLength([c[|c| - 1]]) == HOUR;
    assert IsRun(EXAMPLE_BAR, c, 0, |c|);
    FirstRunIsUnique(EXAMPLE_BAR, TWO_HOURS, now, 2 * DAY, 0, |c|);
  }

  /**
   * The documented "one alert per run" is not kept: two hours of negative prices are one run, and updates at
   * the start of each hour are alerted both times.
   */
  lemma OneRunTwoAlerts()
    ensures Contiguous(TWO_HOURS) && IsRun(EXAMPLE_BAR, TWO_HOURS, 0, 2)
    ensures AlertStarts(EXAMPLE_BAR, TWO_HOURS, ZERO_TIME, [Update(DAY, false, true), Update(DAY + HOUR, false, true)])
            == [DAY, DAY + HOUR]
  {
    hide FirstRun;
    var us := [Update(DAY, false, true), Update(DAY + HOUR, false, true)];
    ReportsFrom(DAY, 0);
    ReportsFrom(DAY + HOUR, 1);
    assert us[1..] == [us[1]] && us[1..][1..] == [];
    assert AlertStarts(EXAMPLE_BAR, TWO_HOURS, DAY, us[1..]) == [DAY + HOUR];
  }
}
