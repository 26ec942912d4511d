/** When one run of extreme prices is alerted more than once (announcer.go). */
module PriceRealerts {
  import opened Options
  import opened PriceSlots
  import opened PriceAnnouncer

  /** What a later update still considers of the slots from p to q. */
  function Rest(slots: seq<PriceSlot>, p: nat, q: nat, now: Time, deadline: Time): seq<PriceSlot>
    requires p <= q <= |slots|
  {
    Considered(slots[p..q], now, deadline)
  }

  /** Something is left of the block, and enough for an alert. */
  predicate RestIsLong(bar: Bar, slots: seq<PriceSlot>, p: nat, q: nat, now: Time, deadline: Time)
    requires p <= q <= |slots|
  {
    Rest(slots, p, q, now, deadline) != [] && TotalLength(Rest(slots, p, q, now, deadline)) >= bar.minLength
  }

  ghost predicate ReportsStart(bar: Bar, slots: seq<PriceSlot>, now: Time, deadline: Time, t: Time) {
    FirstRun(bar, slots, now, deadline).Some? && FirstRun(bar, slots, now, deadline).value.from == t
  }

  lemma RestIsBlock(slots: seq<PriceSlot>, p: nat, q: nat, now: Time, deadline: Time) returns (x: nat, y: nat)
    requires Timeline(slots) && p <= q <= |slots|
    ensures p <= x <= y <= q && Rest(slots, p, q, now, deadline) == slots[x..y]
    ensures forall j :: p <= j < q ==> (x <= j < y <==> IsConsidered(slots[j], now, deadline))
  {
    var block := slots[p..q];
    BlockIsTimeline(slots, p, q);
    hide Timeline, IsConsidered, Considered;
    var a, b := ConsideredIsBlock(block, now, deadline);
    x, y := p + a, p + b;
    assert block[a..b] == slots[x..y];
    forall j | p <= j < q ensures x <= j < y <==> IsConsidered(slots[j], now, deadline) {
      assert block[j - p] == slots[j];
    }
  }

  /** A long enough rest of the block is reported, from its first slot, unless something before it is. */
  lemma RestIsReported(bar: Bar, slots: seq<PriceSlot>, now: Time, deadline: Time, x: nat, y: nat) returns (j: nat)
    requires Timeline(slots) && x < y <= |slots| && forall k :: x <= k < y ==> IsConsidered(slots[k], now, deadline)
    requires (forall k :: x <= k < y ==> bar.Extreme(slots[k])) && TotalLength(slots[x..y]) >= bar.minLength
    ensures j <= x && IsConsidered(slots[j], now, deadline) && ReportsStart(bar, slots, now, deadline, slots[j].from)
  {
    hide FirstRun, TotalLength, Considered;
    var a, b := ConsideredIsBlock(slots, now, deadline);
    assert IsConsidered(slots[x], now, deadline) && IsConsidered(slots[y - 1], now, deadline);
    var u, v := BlockQualifies(bar, slots, a, b, x, y);
    FirstIsNoLater(bar, slots, now, deadline, a, b, u, v);
    StartsAscend(slots, a + u, x);
    var a', b', p', q' := FirstRunInSlots(bar, slots, now, deadline);
    j := p';
    if x < j {
      StartsAscend(slots, x, j);
      assert false;
    }
  }

  lemma StaysInBlock(bar: Bar, slots: seq<PriceSlot>, p: nat, q: nat, j: nat, q': nat)
    requires IsRun(bar, slots, p, q) && p <= j < q && j < q' <= |slots| && forall k :: j <= k < q' ==> bar.Extreme(slots[k])
    ensures q' <= q
  {
  }

  /** What is reported from slot j of a maximal block lies within the rest of the block. */
  lemma ReportedRestIsLong(bar: Bar, slots: seq<PriceSlot>, p: nat, q: nat, now: Time, deadline: Time, j: nat)
    requires Timeline(slots) && IsRun(bar, slots, p, q) && p <= j < q
    requires ReportsStart(bar, slots, now, deadline, slots[j].from)
    ensures RestIsLong(bar, slots, p, q, now, deadline)
  {
    hide FirstRun, TotalLength, IsConsidered, Rest;
    var q' := LeadingBlock(bar, slots, now, deadline, j);
    StaysInBlock(bar, slots, p, q, j, q');
    var x, y := RestIsBlock(slots, p, q, now, deadline);
    assert IsConsidered(slots[j], now, deadline) && IsConsidered(slots[q' - 1], now, deadline);
    LongerBlock(slots, j, q', x, y);
  }

  /** Slot i is the first of the block from p on that is considered. */
  ghost predicate FirstConsidered(slots: seq<PriceSlot>, p: nat, i: nat, now: Time, deadline: Time)
    requires p <= i < |slots|
  {
    IsConsidered(slots[i], now, deadline) && forall k :: p <= k < i ==> !IsConsidered(slots[k], now, deadline)
  }

  ghost predicate NoEarlierRestIsLong(bar: Bar, slots: seq<PriceSlot>, p: nat, now: Time, deadline: Time)
    requires p <= |slots|
  {
    forall p': nat, q': nat :: IsRun(bar, slots, p', q') && q' <= p ==> !RestIsLong(bar, slots, p', q', now, deadline)
  }

  /**
   * Slot i of a maximal block of extreme slots is reported exactly if it is the first of the block that is considered,
   * what is considered of the block is long enough for an alert, and that of no earlier block is.
   */
  lemma ReportedIff(bar: Bar, slots: seq<PriceSlot>, p: nat, q: nat, now: Time, deadline: Time, i: nat)
    requires Timeline(slots) && IsRun(bar, slots, p, q) && p <= i < q
    ensures ReportsStart(bar, slots, now, deadline, slots[i].from) <==>
            && RestIsLong(bar, slots, p, q, now, deadline) && FirstConsidered(slots, p, i, now, deadline)
            && NoEarlierRestIsLong(bar, slots, p, now, deadline)
  {
    hide ReportsStart, RestIsLong, IsConsidered;
    if ReportsStart(bar, slots, now, deadline, slots[i].from) {
      ReportedRestIsLong(bar, slots, p, q, now, deadline, i);
      ReportedIsFirst(bar, slots, p, q, now, deadline, i);
      forall p': nat, q': nat | IsRun(bar, slots, p', q') && q' <= p
        ensures !RestIsLong(bar, slots, p', q', now, deadline)
      {
        if RestIsLong(bar, slots, p', q', now, deadline) {
          var j := LongIsReported(bar, slots, p', q', now, deadline);
          SameReport(bar, slots, now, deadline, i, j);
          assert false;
        }
      }
    }
    if RestIsLong(bar, slots, p, q, now, deadline) && FirstConsidered(slots, p, i, now, deadline)
       && NoEarlierRestIsLong(bar, slots, p, now, deadline) {
      var j := LongIsReported(bar, slots, p, q, now, deadline);
      if j < p {
        var p', q' := EarlierBlock(bar, slots, p, q, now, deadline, j);
        ReportedRestIsLong(bar, slots, p', q', now, deadline, j);
        assert false;
      }
      if i < j {
        ReportedIsFirst(bar, slots, p, q, now, deadline, j);
        assert false;
      }
    }
  }

  lemma SameReport(bar: Bar, slots: seq<PriceSlot>, now: Time, deadline: Time, i: nat, j: nat)
    requires Timeline(slots) && i < |slots| && j < |slots| && ReportsStart(bar, slots, now, deadline, slots[i].from)
    requires ReportsStart(bar, slots, now, deadline, slots[j].from)
    ensures i == j
  {
    SameFromSameSlot(slots, i, j);
  }

  /** When the rest of a block is long enough, a slot of it or before it is reported. */
  lemma LongIsReported(bar: Bar, slots: seq<PriceSlot>, p: nat, q: nat, now: Time, deadline: Time) returns (j: nat)
    requires Timeline(slots) && IsRun(bar, slots, p, q) && RestIsLong(bar, slots, p, q, now, deadline)
    ensures j < q && IsConsidered(slots[j], now, deadline) && ReportsStart(bar, slots, now, deadline, slots[j].from)
  {
    hide FirstRun, TotalLength, Rest, ReportsStart;
    var x, y := RestIsBlock(slots, p, q, now, deadline);
    j := RestIsReported(bar, slots, now, deadline, x, y);
  }

  /** No slot of the block before the reported one is considered. */
  lemma ReportedIsFirst(bar: Bar, slots: seq<PriceSlot>, p: nat, q: nat, now: Time, deadline: Time, i: nat)
    requires Timeline(slots) && IsRun(bar, slots, p, q) && p <= i < q
    requires ReportsStart(bar, slots, now, deadline, slots[i].from)
    ensures FirstConsidered(slots, p, i, now, deadline)
  {
    hide FirstRun, TotalLength, IsConsidered, Considered, IsFirstRun;
    var a, b, p', q' := FirstRunInSlots(bar, slots, now, deadline);
    SameFromSameSlot(slots, i, p');
  }

  /** The block of a slot that is reported and lies before this block. */
  lemma EarlierBlock(bar: Bar, slots: seq<PriceSlot>, p: nat, q: nat, now: Time, deadline: Time, j: nat)
    returns (p': nat, q': nat)
    requires Timeline(slots) && IsRun(bar, slots, p, q) && j < p
    requires ReportsStart(bar, slots, now, deadline, slots[j].from)
    ensures IsRun(bar, slots, p', q') && p' <= j < q' <= p
  {
    hide FirstRun, TotalLength, IsConsidered;
    var _ := LeadingBlock(bar, slots, now, deadline, j);
    p', q' := j, j + 1;
    while p' > 0 && bar.Extreme(slots[p' - 1])
      invariant p' <= j
      invariant forall k :: p' <= k <= j ==> bar.Extreme(slots[k])
    {
      p' := p' - 1;
    }
    while q' < p && bar.Extreme(slots[q'])
      invariant j < q' <= p
      invariant forall k :: p' <= k < q' ==> bar.Extreme(slots[k])
    {
      q' := q' + 1;
    }
  }

  /**
   * One update has reported slot i of a maximal block of extreme slots. A later one reports another slot of the same
   * block exactly if slot i has ended and what it still considers of the block is long enough for an alert.
   */
  lemma ReportedAgainIff(bar: Bar, slots: seq<PriceSlot>, p: nat, q: nat, now: Time, deadline: Time, now': Time,
                         deadline': Time, i: nat)
    requires Timeline(slots) && IsRun(bar, slots, p, q)
    requires now <= now' && deadline <= deadline'
    requires p <= i < q && ReportsStart(bar, slots, now, deadline, slots[i].from)
    ensures (exists j :: p <= j < q && j != i && ReportsStart(bar, slots, now', deadline', slots[j].from)) <==>
            slots[i].till <= now' && RestIsLong(bar, slots, p, q, now', deadline')
  {
    hide FirstRun, TotalLength, Rest, IsConsidered;
    if j :| p <= j < q && j != i && ReportsStart(bar, slots, now', deadline', slots[j].from) {
      SameStartWhileLeadingSlotLasts(bar, slots, now, deadline, now', deadline', i);
      ReportedRestIsLong(bar, slots, p, q, now', deadline', j);
      if slots[i].till > now' {
        SameFromSameSlot(slots, i, j);
      }
    } else if slots[i].till <= now' && RestIsLong(bar, slots, p, q, now', deadline') {
      var j := ReportedLater(bar, slots, p, q, now, deadline, now', deadline', i);
      assert false;
    }
  }

  lemma ReportedLater(bar: Bar, slots: seq<PriceSlot>, p: nat, q: nat, now: Time, deadline: Time, now': Time,
                      deadline': Time, i: nat) returns (j: nat)
    requires Timeline(slots) && IsRun(bar, slots, p, q)
    requires now <= now' && deadline <= deadline'
    requires p <= i < q && ReportsStart(bar, slots, now, deadline, slots[i].from)
    requires slots[i].till <= now' && RestIsLong(bar, slots, p, q, now', deadline')
    ensures p <= j < q && j != i && ReportsStart(bar, slots, now', deadline', slots[j].from)
  {
    hide FirstRun, TotalLength, Rest;
    var x, y := RestIsBlock(slots, p, q, now', deadline');
    j := RestIsReported(bar, slots, now', deadline', x, y);
    StartNeverDecreases(bar, slots, now, deadline, now', deadline');
    if j < i {
      StartsAscend(slots, j, i);
      assert false;
    }
    assert !IsConsidered(slots[i], now', deadline');
  }

  // ---- Over a run of updates ----

  predicate Deliverable(u: Update) {
    !u.suppressed && u.accepted
  }

  ghost predicate Reports(bar: Bar, slots: seq<PriceSlot>, u: Update, t: Time) {
    ReportsStart(bar, slots, u.now, Midnight(u.now), t)
  }

  ghost predicate SomeReports(bar: Bar, slots: seq<PriceSlot>, us: seq<Update>, t: Time) {
    exists a :: 0 <= a < |us| && Deliverable(us[a]) && Reports(bar, slots, us[a], t)
  }

  lemma SomeReportsSplits(bar: Bar, slots: seq<PriceSlot>, us: seq<Update>, t: Time)
    requires us != []
    ensures SomeReports(bar, slots, us, t) <==>
            (Deliverable(us[0]) && Reports(bar, slots, us[0], t)) || SomeReports(bar, slots, us[1..], t)
  {
    hide Reports;
    assert forall a :: 0 <= a < |us[1..]| ==> us[1..][a] == us[a + 1];
    if a :| 0 < a < |us| && Deliverable(us[a]) && Reports(bar, slots, us[a], t) {
      assert us[1..][a - 1] == us[a];
    }
  }

  /** The alerts are the starts that updates have reported, were free to deliver, and that are not the last one. */
  lemma {:induction false} AlertsAreReports(bar: Bar, slots: seq<PriceSlot>, last: Time, us: seq<Update>, t: Time)
    requires Timeline(slots) && InOrder(us) && StartsFrom(bar, slots, last, us)
    ensures t in AlertStarts(bar, slots, last, us) <==> t != last && SomeReports(bar, slots, us, t)
    decreases |us|
  {
    hide FirstRun, Timeline, SomeReports;
    if us == [] {
      NothingReported(bar, slots, t);
    } else {
      var d := Delivered(bar, slots, last, us[0]);
      SomeReportsSplits(bar, slots, us, t);
      assert forall i :: 0 <= i < |us[1..]| ==> us[1..][i] == us[i + 1];
      NoSlotsNoRun(bar, slots, us[0].now, Midnight(us[0].now));
      if d.None? {
        AlertsAreReports(bar, slots, last, us[1..], t);
      } else {
        LaterStartsFrom(bar, slots, us);
        AlertsAreReports(bar, slots, d.value.from, us[1..], t);
        NotBefore(bar, slots, d.value.from, us[1..], t);
      }
    }
  }

  lemma NothingReported(bar: Bar, slots: seq<PriceSlot>, t: Time)
    ensures !SomeReports(bar, slots, [], t)
  {
  }

  lemma NoSlotsNoRun(bar: Bar, slots: seq<PriceSlot>, now: Time, deadline: Time)
    ensures slots == [] ==> FirstRun(bar, slots, now, deadline) == None
  {
    var c := Considered(slots, now, deadline);
    assert slots == [] ==> c == [];
  }

  lemma NotBefore(bar: Bar, slots: seq<PriceSlot>, last: Time, us: seq<Update>, t: Time)
    requires StartsFrom(bar, slots, last, us)
    ensures SomeReports(bar, slots, us, t) ==> last <= t
  {
  }

  /** Two different slots of the block start an alert. */
  ghost predicate AlertedTwice(bar: Bar, slots: seq<PriceSlot>, us: seq<Update>, p: nat, q: nat)
    requires q <= |slots|
  {
    exists i, j :: p <= i < j < q && slots[i].from in AlertStarts(bar, slots, ZERO_TIME, us)
                   && slots[j].from in AlertStarts(bar, slots, ZERO_TIME, us)
  }

  /**
   * Update a finds slot i the first of the block it considers, with enough left of the block and of no earlier one;
   * at update b that slot has ended and still enough is left of the block.
   */
  ghost predicate Outlives(bar: Bar, slots: seq<PriceSlot>, us: seq<Update>, p: nat, q: nat, a: nat, b: nat, i: nat)
    requires p <= q <= |slots|
  {
    && a < b < |us| && p <= i < q && Deliverable(us[a]) && Deliverable(us[b])
    && RestIsLong(bar, slots, p, q, us[a].now, Midnight(us[a].now))
    && FirstConsidered(slots, p, i, us[a].now, Midnight(us[a].now))
    && NoEarlierRestIsLong(bar, slots, p, us[a].now, Midnight(us[a].now))
    && slots[i].till <= us[b].now && RestIsLong(bar, slots, p, q, us[b].now, Midnight(us[b].now))
  }

  /**
   * The documented one alert per run, exactly: over updates in time order a maximal block of extreme slots is alerted
   * twice if and only if an update free to alert finds what is left of the block, up to the end of its day, long enough
   * for an alert and of no earlier block, and a later one finds the first slot of that rest ended and what is left still
   * long enough.
   */
  lemma AlertedTwiceIff(bar: Bar, slots: seq<PriceSlot>, us: seq<Update>, p: nat, q: nat)
    requires Timeline(slots) && (forall s :: s in slots ==> s.from > ZERO_TIME) && InOrder(us)
    requires IsRun(bar, slots, p, q)
    ensures AlertedTwice(bar, slots, us, p, q) <==> exists a, b, i :: Outlives(bar, slots, us, p, q, a, b, i)
  {
    hide FirstRun, Considered, TotalLength, AlertStarts, SomeReports, RestIsLong;
    AllStartAfterZero(bar, slots, us);
    if AlertedTwice(bar, slots, us, p, q) {
      var i: nat, j: nat :| p <= i < j < q && slots[i].from in AlertStarts(bar, slots, ZERO_TIME, us)
                  && slots[j].from in AlertStarts(bar, slots, ZERO_TIME, us);
      AlertsAreReports(bar, slots, ZERO_TIME, us, slots[i].from);
      AlertsAreReports(bar, slots, ZERO_TIME, us, slots[j].from);
      var a, b := TwiceOutlives(bar, slots, us, p, q, i, j);
      assert Outlives(bar, slots, us, p, q, a, b, i);
    }
    if a: nat, b: nat, i: nat :| Outlives(bar, slots, us, p, q, a, b, i) {
      OutlivedIsAlertedTwice(bar, slots, us, p, q, a, b, i);
    }
  }

  lemma TwiceOutlives(bar: Bar, slots: seq<PriceSlot>, us: seq<Update>, p: nat, q: nat, i: nat, j: nat)
    returns (a: nat, b: nat)
    requires Timeline(slots) && InOrder(us) && IsRun(bar, slots, p, q) && p <= i < j < q
    requires SomeReports(bar, slots, us, slots[i].from) && SomeReports(bar, slots, us, slots[j].from)
    ensures Outlives(bar, slots, us, p, q, a, b, i)
  {
    hide FirstRun, TotalLength, RestIsLong;
    a :| a < |us| && Deliverable(us[a]) && Reports(bar, slots, us[a], slots[i].from);
    b :| b < |us| && Deliverable(us[b]) && Reports(bar, slots, us[b], slots[j].from);
    StartsAscend(slots, i, j);
    if b < a {
      MidnightAscends(us[b].now, us[a].now);
      StartNeverDecreases(bar, slots, us[b].now, Midnight(us[b].now), us[a].now, Midnight(us[a].now));
      assert false;
    }
    MidnightAscends(us[a].now, us[b].now);
    ReportedAgainIff(bar, slots, p, q, us[a].now, Midnight(us[a].now), us[b].now, Midnight(us[b].now), i);
    ReportedIff(bar, slots, p, q, us[a].now, Midnight(us[a].now), i);
  }

  lemma OutlivedIsAlertedTwice(bar: Bar, slots: seq<PriceSlot>, us: seq<Update>, p: nat, q: nat, a: nat, b: nat, i: nat)
    requires Timeline(slots) && (forall s :: s in slots ==> s.from > ZERO_TIME) && InOrder(us)
    requires StartsFrom(bar, slots, ZERO_TIME, us)
    requires IsRun(bar, slots, p, q) && Outlives(bar, slots, us, p, q, a, b, i)
    ensures AlertedTwice(bar, slots, us, p, q)
  {
    hide FirstRun, TotalLength, RestIsLong, AlertStarts;
    MidnightAscends(us[a].now, us[b].now);
    ReportedIff(bar, slots, p, q, us[a].now, Midnight(us[a].now), i);
    ReportedAgainIff(bar, slots, p, q, us[a].now, Midnight(us[a].now), us[b].now, Midnight(us[b].now), i);
    var j: nat :| p <= j < q && j != i && ReportsStart(bar, slots, us[b].now, Midnight(us[b].now), slots[j].from);
    assert slots[i] in slots && slots[j] in slots;
    assert Reports(bar, slots, us[b], slots[j].from);
    AlertsAreReports(bar, slots, ZERO_TIME, us, slots[i].from);
    AlertsAreReports(bar, slots, ZERO_TIME, us, slots[j].from);
  }
}
