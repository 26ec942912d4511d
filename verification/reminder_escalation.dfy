/** When reminders are notified over a sequence of ticks, and how the escalation profiles compare (policy.go). */
module ReminderEscalation {
  import opened Options
  import opened PriceSlots
  import opened Reminders
  import S = ReminderStore
  import opened ReminderStore
  import opened ReminderTick
  import Runs = ReminderRuns

  ghost predicate Ascending(ticks: seq<Time>) {
    forall i, j :: 0 <= i < j < |ticks| ==> ticks[i] <= ticks[j]
  }

  /** The times one stored reminder is notified at over failure-free ticks. */
  function Trajectory(row: Option<Reminder>, ticks: seq<Time>): seq<Time>
    requires row.Some? ==> row.value.HasInterval()
    decreases |ticks|
  {
    if ticks == [] || row.None? then []
    else
      (if Fires(row.value, ticks[0]) then [ticks[0]] else []) + Trajectory(After(row.value, ticks[0]), ticks[1..])
  }

  predicate Fires(r: Reminder, now: Time)
    requires r.HasInterval()
  {
    SqlDue(r, now) && Tells(r, now)
  }

  function After(r: Reminder, now: Time): (row: Option<Reminder>)
    requires r.HasInterval()
    ensures row.Some? ==> row.value.HasInterval()
  {
    if SqlDue(r, now) then NextRow(r, now) else Some(r)
  }

  // ---- The store over a sequence of ticks follows the trajectories ----

  /** The times one id was notified at, according to the log. */
  function SentTimes(log: seq<Entry>, id: ReminderId): (times: seq<Time>)
    ensures |times| == |SentTo(log, id)|
  {
    seq(|SentTo(log, id)|, i requires 0 <= i < |SentTo(log, id)| => SentTo(log, id)[i].at)
  }

  lemma SentTimesAppend(log: seq<Entry>, more: seq<Entry>, id: ReminderId)
    ensures SentTimes(log + more, id) == SentTimes(log, id) + SentTimes(more, id)
  {
    SentToAppend(log, more, id);
  }

  /** A tick, or an event about another reminder. */
  predicate NotAbout(e: Runs.Event, id: ReminderId) {
    match e
    case Create(cmd, _) => cmd.id != id
    case Ack(x, _, _) => x != id
    case Delete(x) => x != id
    case Tick(_, _) => true
  }

  function TickTimes(es: seq<Runs.Event>): seq<Time>
    decreases |es|
  {
    if es == [] then [] else (if es[0].Tick? then [es[0].at] else []) + TickTimes(es[1..])
  }

  lemma OneTickFollows(w: World, order: seq<ReminderId>, at: Time, id: ReminderId)
    requires CanTick(w, order, at) && w.script == [] && id in w.rows
    ensures S.Tick(w, order, at).0.script == []
    ensures RowAt(S.Tick(w, order, at).0.rows, id) == After(w.rows[id], at)
    ensures SentTimes(S.Tick(w, order, at).0.log, id) ==
            SentTimes(w.log, id) + if Fires(w.rows[id], at) then [at] else []
  {
    hide S.Tick, NextRow, Stored, SqlDue;
    var k := TickOutcome(w, order, at);
    assert order[..k] == order;
    if id in order {
      var i :| 0 <= i < |order| && order[i] == id;
    }
    ToldOnce(w.rows, order, at, id);
    SentTimesAppend(w.log, Told(w.rows, order, at), id);
  }

  lemma GoneStaysGone(w: World, order: seq<ReminderId>, at: Time, id: ReminderId)
    requires CanTick(w, order, at) && w.script == [] && id !in w.rows
    ensures S.Tick(w, order, at).0.script == []
    ensures id !in S.Tick(w, order, at).0.rows && SentTimes(S.Tick(w, order, at).0.log, id) == SentTimes(w.log, id)
  {
    hide S.Tick, NextRow, Stored, SqlDue;
    var k := TickOutcome(w, order, at);
    assert order[..k] == order;
    assert RowAt(S.Tick(w, order, at).0.rows, id) == RowAt(w.rows, id);
    ToldOnce(w.rows, order, at, id);
    SentTimesAppend(w.log, Told(w.rows, order, at), id);
  }

  /** One event of the store is one step of the trajectory, or none, for a stored id and for any other. */
  lemma EventIsTrajectoryStep(w: World, e: Runs.Event, id: ReminderId, later: seq<Time>) returns (sent: seq<Time>)
    requires Runs.CanHappen(w, e) && w.script == [] && NotAbout(e, id)
    requires id in w.rows ==> w.rows[id].HasInterval()
    ensures var w' := Runs.Step(w, e);
            && w'.script == []
            && (id in w'.rows ==> w'.rows[id].HasInterval())
            && SentTimes(w'.log, id) == SentTimes(w.log, id) + sent
            && Trajectory(RowAt(w.rows, id), TickTimes([e]) + later) == sent + Trajectory(RowAt(w'.rows, id), later)
  {
    hide S.Tick, Fires, After, SqlDue, SentTimes;
    assert [e][1..] == [] && TickTimes([]) == [];
    if !e.Tick? {
      sent := [];
      OtherEventSpares(w, e, id);
      assert TickTimes([e]) + later == later;
    } else if id in w.rows {
      assert TickTimes([e]) + later == [e.at] + later && ([e.at] + later)[1..] == later;
      assert WellStored(w.rows[id], id);
      OneTickFollows(w, e.order, e.at, id);
      sent := if Fires(w.rows[id], e.at) then [e.at] else [];
    } else {
      GoneStaysGone(w, e.order, e.at, id);
      sent := [];
    }
  }

  lemma OtherEventSpares(w: World, e: Runs.Event, id: ReminderId)
    requires Runs.CanHappen(w, e) && w.script == [] && NotAbout(e, id) && !e.Tick?
    ensures var w' := Runs.Step(w, e);
            && w'.script == [] && RowAt(w'.rows, id) == RowAt(w.rows, id)
            && SentTimes(w'.log, id) == SentTimes(w.log, id)
  {
    var w' := Runs.Step(w, e);
    assert w'.log == w.log || (w'.log[..|w'.log| - 1] == w.log && w'.log[|w.log|].Created?);
  }

  /** In every failure-free run each reminder is notified at exactly the times of its own trajectory over the ticks. */
  lemma {:induction false} StoreFollowsTrajectory(w: World, es: seq<Runs.Event>, id: ReminderId)
    requires Runs.IsRun(w, es) && w.script == [] && (id in w.rows ==> w.rows[id].HasInterval())
    requires forall e :: e in es ==> NotAbout(e, id)
    ensures SentTimes(Runs.Run(w, es).log, id) == SentTimes(w.log, id) + Trajectory(RowAt(w.rows, id), TickTimes(es))
    decreases |es|
  {
    hide Runs.Step, Runs.CanHappen, Trajectory, SentTimes, Reminder.HasInterval, NotAbout;
    if es == [] {
      TrajectoryNow(RowAt(w.rows, id));
    } else {
      assert es[0] in es && forall e :: e in es[1..] ==> e in es;
      var w' := Runs.Step(w, es[0]);
      var sent := EventIsTrajectoryStep(w, es[0], id, TickTimes(es[1..]));
      assert [es[0]][1..] == [] && TickTimes(es) == TickTimes([es[0]]) + TickTimes(es[1..]);
      StoreFollowsTrajectory(w', es[1..], id);
      var before, after := SentTimes(w.log, id), Trajectory(RowAt(w'.rows, id), TickTimes(es[1..]));
      assert (before + sent) + after == before + (sent + after);
    }
  }

  lemma TrajectoryNow(row: Option<Reminder>)
    requires row.Some? ==> row.value.HasInterval()
    ensures Trajectory(row, []) == []
  {
  }

  lemma TrajectoryOfNone(ticks: seq<Time>)
    ensures Trajectory(None, ticks) == []
  {
  }

  // ---- Spacing ----

  /** A one-time reminder that needs an ack. */
  predicate Escalates(r: Reminder) {
    r.schedule.kind == Once && r.policy.requiresAck
  }

  lemma AfterFiring(r: Reminder, id: ReminderId, now: Time)
    requires WellStored(r, id) && Escalates(r) && Fires(r, now)
    ensures var fired := r.Triggered(now);
            && After(r, now).Some?
            && After(r, now).value.schedule.nextRunAt == Some(FloorSecond(now + fired.RepeatDelay()))
            && After(r, now).value.state.fireCount == r.state.fireCount + 1
            && After(r, now).value.policy == r.policy
            && After(r, now).value.schedule.kind == r.schedule.kind
            && After(r, now).value.schedule.validUntil == r.schedule.validUntil
  {
    assert Stored(r).schedule == r.schedule;
  }

  /** Read on the Unix clock, the first notification of a reminder that already has its next run comes no earlier. */
  lemma {:induction false} FirstNotBefore(row: Option<Reminder>, ticks: seq<Time>, t: Time)
    requires row.Some? ==> row.value.HasInterval() && row.value.schedule.nextRunAt.Some?
    requires row.Some? ==> t <= row.value.schedule.nextRunAt.value
    ensures Trajectory(row, ticks) != [] ==> t <= FloorSecond(Trajectory(row, ticks)[0])
    decreases |ticks|
  {
    hide Tells, NextRow;
    if row.Some? && ticks != [] && !SqlDue(row.value, ticks[0]) {
      FirstNotBefore(row, ticks[1..], t);
    } else if row.Some? && ticks != [] && !Tells(row.value, ticks[0]) {
      NotToldIsGone(row.value, ticks[0]);
      TrajectoryOfNone(ticks[1..]);
    }
  }

  lemma NotToldIsGone(r: Reminder, now: Time)
    requires r.HasInterval() && !Tells(r, now)
    ensures NextRow(r, now) == None
  {
  }

  /** The seconds of the Unix clock at the notifications of an escalating reminder are at least 5 minutes apart. */
  lemma {:induction false} NotificationsAreSpaced(r: Reminder, id: ReminderId, ticks: seq<Time>)
    requires WellStored(r, id) && Escalates(r)
    ensures var ts := Trajectory(Some(r), ticks);
            forall i :: 0 <= i && i + 1 < |ts| ==> FloorSecond(ts[i + 1]) - FloorSecond(ts[i]) >= 5 * MINUTE
    decreases |ticks|
  {
    if ticks != [] {
      var now := ticks[0];
      var next := After(r, now);
      if SqlDue(r, now) && Tells(r, now) {
        AfterFiring(r, id, now);
        NextRowIsWellStored(r, id, now);
        var fired := r.Triggered(now);
        DelayIsLong(fired);
        DelayIsWhole(fired);
        FloorShift(now, fired.RepeatDelay());
        FirstNotBefore(next, ticks[1..], FloorSecond(now) + 5 * MINUTE);
        NotificationsAreSpaced(next.value, id, ticks[1..]);
      } else if SqlDue(r, now) {
        NotToldIsGone(r, now);
        TrajectoryOfNone(ticks[1..]);
      } else {
        NotificationsAreSpaced(r, id, ticks[1..]);
        assert Trajectory(Some(r), ticks) == Trajectory(Some(r), ticks[1..]);
      }
    }
  }

  // ---- When the gap is 5 minutes in nanoseconds too ----

  ghost predicate FiveMinutesApart(ts: seq<Time>) {
    forall i :: 0 <= i && i + 1 < |ts| ==> ts[i + 1] - ts[i] >= 5 * MINUTE
  }

  /** Whatever escalating reminder some run has stored, its notifications over these ticks are 5 minutes apart. */
  ghost predicate AlwaysSpaced(ticks: seq<Time>) {
    forall w, id :: Runs.Reached(w) && id in w.rows && Escalates(w.rows[id]) ==>
                      FiveMinutesApart(Trajectory(Some(w.rows[id]), ticks))
  }

  /** Tick i is the first of its second. */
  ghost predicate FirstOfSecond(ticks: seq<Time>, i: nat) {
    i < |ticks| && forall h :: 0 <= h < i ==> FloorSecond(ticks[h]) < FloorSecond(ticks[i])
  }

  /** Tick j is the first whose second is s or later. */
  ghost predicate FirstFrom(ticks: seq<Time>, s: Time, j: nat) {
    j < |ticks| && FloorSecond(ticks[j]) >= s && forall h :: 0 <= h < j ==> FloorSecond(ticks[h]) < s
  }

  /** From the first tick of a second to the first tick 5 minutes of seconds later it is 5 minutes. */
  ghost predicate WellSpaced(ticks: seq<Time>) {
    forall i: nat, j: nat :: FirstOfSecond(ticks, i) && FirstFrom(ticks, FloorSecond(ticks[i]) + 5 * MINUTE, j) ==>
                               ticks[j] - ticks[i] >= 5 * MINUTE
  }

  lemma SqlDueIsNextDue(r: Reminder, now: Time)
    ensures SqlDue(r, now) <==> NextDue(r) <= FloorSecond(now)
  {
  }

  lemma {:induction false} FirstFromExists(ticks: seq<Time>, s: Time, n: nat) returns (j: nat)
    requires n < |ticks| && FloorSecond(ticks[n]) >= s
    ensures j <= n && FirstFrom(ticks, s, j)
  {
    if h :| 0 <= h < n && FloorSecond(ticks[h]) >= s {
      j := FirstFromExists(ticks, s, h);
    } else {
      j := n;
    }
  }

  /** The notification at tick n comes 5 minutes after the one at tick a. */
  lemma GapIsFiveMinutes(ticks: seq<Time>, a: nat, n: nat)
    requires Ascending(ticks) && WellSpaced(ticks) && FirstOfSecond(ticks, a)
    requires n < |ticks| && FloorSecond(ticks[n]) >= FloorSecond(ticks[a]) + 5 * MINUTE
    ensures ticks[n] - ticks[a] >= 5 * MINUTE
  {
    hide FloorSecond;
    var j := FirstFromExists(ticks, FloorSecond(ticks[a]) + 5 * MINUTE, n);
    assert j < n ==> ticks[j] <= ticks[n];
  }

  /** What the next row is due at, when tick n has fired. */
  lemma DueAfterFiring(r: Reminder, now: Time)
    requires WellStored(r, r.id) && Escalates(r) && Fires(r, now)
    ensures var next := After(r, now);
            && next.Some? && WellStored(next.value, next.value.id) && Escalates(next.value)
            && NextDue(next.value) >= FloorSecond(now) + 5 * MINUTE
  {
    AfterFiring(r, r.id, now);
    NextRowIsWellStored(r, r.id, now);
    var fired := r.Triggered(now);
    DelayIsLong(fired);
    DelayIsWhole(fired);
    FloorShift(now, fired.RepeatDelay());
  }

  lemma FloorsAscend(ticks: seq<Time>, h: nat, n: nat)
    requires Ascending(ticks) && h <= n < |ticks|
    ensures FloorSecond(ticks[h]) <= FloorSecond(ticks[n])
  {
    FloorSecondAscends(ticks[h], if h < n then ticks[n] else ticks[h]);
  }

  function LastNotified(ticks: seq<Time>, last: Option<nat>): seq<Time>
    requires last.Some? ==> last.value < |ticks|
  {
    if last.Some? then [ticks[last.value]] else []
  }

  /** From tick n on, with no earlier tick in the reminder's due second or after, and the last notification at hand. */
  lemma {:induction false} SpacedFrom(r: Reminder, ticks: seq<Time>, n: nat, last: Option<nat>)
    requires WellStored(r, r.id) && Escalates(r) && Ascending(ticks) && WellSpaced(ticks) && n <= |ticks|
    requires n > 0 ==> forall h :: 0 <= h < n ==> FloorSecond(ticks[h]) < NextDue(r)
    requires last.Some? ==> last.value < n && FirstOfSecond(ticks, last.value)
                            && NextDue(r) >= FloorSecond(ticks[last.value]) + 5 * MINUTE
    ensures FiveMinutesApart(LastNotified(ticks, last) + Trajectory(Some(r), ticks[n..]))
    decreases |ticks| - n
  {
    hide FloorSecond, Fires, After, Escalates, WellSpaced, Ascending, NextDue, WellStored, Trajectory;
    StoredHasInterval(r);
    if n == |ticks| {
      assert ticks[n..] == [];
      TrajectoryNow(Some(r));
    } else {
      var now, rest := ticks[n], ticks[n..];
      assert rest[1..] == ticks[n + 1..];
      TrajectoryStarts(r, rest);
      FiresWhenDue(r, now);
      if Fires(r, now) {
        assert FirstOfSecond(ticks, n);
        DueAfterFiring(r, now);
        forall h | 0 <= h < n + 1 ensures FloorSecond(ticks[h]) < NextDue(After(r, now).value) {
          FloorsAscend(ticks, h, n);
        }
        SpacedFrom(After(r, now).value, ticks, n + 1, Some(n));
        if last.Some? {
          GapIsFiveMinutes(ticks, last.value, n);
        }
        Prepend(LastNotified(ticks, last), now, Trajectory(After(r, now), ticks[n + 1..]));
      } else {
        SlowWaits(r, now);
        assert [] + Trajectory(After(r, now), rest[1..]) == Trajectory(After(r, now), rest[1..]);
        if After(r, now).Some? {
          SpacedFrom(r, ticks, n + 1, last);
        } else {
          TrajectoryOfNone(rest[1..]);
        }
      }
    }
  }

  lemma StoredHasInterval(r: Reminder)
    requires WellStored(r, r.id)
    ensures r.HasInterval()
  {
  }

  lemma FiresWhenDue(r: Reminder, now: Time)
    requires r.HasInterval()
    ensures Fires(r, now) ==> NextDue(r) <= FloorSecond(now)
    ensures !Fires(r, now) && After(r, now).Some? ==> FloorSecond(now) < NextDue(r)
  {
    SqlDueIsNextDue(r, now);
  }

  lemma Prepend(last: seq<Time>, now: Time, later: seq<Time>)
    requires |last| <= 1 && (last != [] ==> now - last[0] >= 5 * MINUTE) && FiveMinutesApart([now] + later)
    ensures FiveMinutesApart(last + ([now] + later))
  {
    var ts, all := [now] + later, last + ([now] + later);
    forall i | 0 <= i && i + 1 < |all| ensures all[i + 1] - all[i] >= 5 * MINUTE {
      if last == [] {
        assert all == ts;
      } else if i > 0 {
        assert all[i] == ts[i - 1] && all[i + 1] == ts[i];
      }
    }
  }

  // ---- and when it is not ----

  /** Ticks before the due second change nothing. */
  lemma {:induction false} SkipsTo(r: Reminder, ticks: seq<Time>, n: nat)
    requires r.HasInterval() && n <= |ticks| && forall h :: 0 <= h < n ==> FloorSecond(ticks[h]) < NextDue(r)
    ensures Trajectory(Some(r), ticks) == Trajectory(Some(r), ticks[n..])
    decreases |ticks|
  {
    if n == 0 {
      assert ticks[0..] == ticks;
    } else {
      SqlDueIsNextDue(r, ticks[0]);
      assert forall h :: 0 <= h < n - 1 ==> ticks[1..][h] == ticks[h + 1];
      SkipsTo(r, ticks[1..], n - 1);
      assert ticks[1..][n - 1..] == ticks[n..];
    }
  }

  /** How long after its trigger time an annoying reminder is due that has fired n times, each time when it was due. */
  function Course(n: nat): Duration {
    if n == 0 then 0 else Course(n - 1) + DocumentedDelay(ANNOYING, n)
  }

  /** Its row then. */
  function Impatient(n: nat, trigger: Time): Reminder {
    var last := if n == 0 then trigger else trigger + Course(n - 1);
    Reminder("r", {"u"}, [], Schedule(Once, trigger, if n == 0 then None else Some(trigger + Course(n)), None, None),
             DeliveryPolicy(true, ANNOYING), State(n, if n == 0 then None else Some(last), trigger, last),
             Metadata("", "", ""))
  }

  lemma ImpatientFires(r: Reminder, now: Time)
    requires WellStored(r, r.id) && Escalates(r) && r.policy.profile == ANNOYING && r.state.fireCount >= 6
    requires r.schedule.validUntil == None && NextDue(r) <= FloorSecond(now)
    ensures Fires(r, now) && After(r, now).Some?
    ensures NextDue(After(r, now).value) == FloorSecond(now) + 5 * MINUTE
    ensures var next := After(r, now).value;
            && WellStored(next, next.id) && Escalates(next) && next.policy.profile == ANNOYING
            && next.state.fireCount >= 6 && next.schedule.validUntil == None
  {
    LoudFires(r, now);
    AfterFiring(r, r.id, now);
    NextRowIsWellStored(r, r.id, now);
    NextRunByProfile(r, now);
    var fired := r.Triggered(now);
    assert fired.RepeatDelay() == 5 * MINUTE by {
      assert 15 * MINUTE - (fired.state.fireCount - 2) * (2 * MINUTE) <= 5 * MINUTE;
    }
    DelayIsWhole(fired);
    FloorShift(now, 5 * MINUTE);
  }

  lemma FiresNext(r: Reminder, ticks: seq<Time>, n: nat)
    requires WellStored(r, r.id) && Escalates(r) && r.policy.profile == ANNOYING && r.state.fireCount >= 6
    requires r.schedule.validUntil == None && FirstFrom(ticks, NextDue(r), n)
    ensures r.HasInterval() && Fires(r, ticks[n]) && After(r, ticks[n]).Some?
    ensures Trajectory(Some(r), ticks) == [ticks[n]] + Trajectory(After(r, ticks[n]), ticks[n + 1..])
  {
    hide Fires, After, Trajectory, FloorSecond, NextDue;
    ImpatientFires(r, ticks[n]);
    SkipsTo(r, ticks, n);
    TrajectoryStarts(r, ticks[n..]);
    assert ticks[n..][1..] == ticks[n + 1..];
  }

  lemma ImpatientIsStored(n: nat, trigger: Time)
    requires FloorSecond(trigger) == trigger
    ensures WellStored(Impatient(n, trigger), "r") && FloorSecond(trigger + Course(n)) == trigger + Course(n)
  {
    hide FloorSecond, Course, Stored;
    WholeCourse(n, trigger);
    if n > 0 {
      WholeCourse(n - 1, trigger);
    }
    WholeIsStored(Impatient(n, trigger));
  }

  lemma WholeIsStored(r: Reminder)
    requires r.acks == [] && r.schedule.recurEvery == None && r.schedule.validUntil == None
    requires FloorSecond(r.schedule.triggerAt) == r.schedule.triggerAt
    requires FloorOption(r.schedule.nextRunAt) == r.schedule.nextRunAt
    requires FloorOption(r.state.lastFiredAt) == r.state.lastFiredAt
    requires FloorSecond(r.state.createdAt) == r.state.createdAt
    requires FloorSecond(r.state.updatedAt) == r.state.updatedAt
    ensures Stored(r) == r
  {
    hide FloorSecond;
    assert Stored(r).acks == [];
  }

  lemma {:induction false} WholeCourse(n: nat, trigger: Time)
    requires FloorSecond(trigger) == trigger
    ensures FloorSecond(trigger + Course(n)) == trigger + Course(n)
  {
    if n > 0 {
      WholeCourse(n - 1, trigger);
      assert DocumentedDelay(ANNOYING, n) % SECOND == 0;
    }
  }

  lemma ImpatientStep(n: nat, trigger: Time)
    requires FloorSecond(trigger) == trigger
    ensures SqlDue(Impatient(n, trigger), trigger + Course(n))
    ensures After(Impatient(n, trigger), trigger + Course(n)) == Some(Impatient(n + 1, trigger))
  {
    var r, now := Impatient(n, trigger), trigger + Course(n);
    WholeCourse(n, trigger);
    NextRunByProfile(r, now);
    ImpatientIsStored(n + 1, trigger);
    assert r.Triggered(now) == Impatient(n + 1, trigger);
  }

  /** A world whose one reminder is this one. */
  ghost predicate Holds(w: World, r: Reminder) {
    w.script == [] && (forall id :: id in w.rows <==> id == r.id) && w.rows[r.id] == r
  }

  /** Created at its trigger time and ticked whenever it is due, it gets there. */
  lemma {:induction false} ImpatientIsReached(n: nat, trigger: Time) returns (w: World)
    requires FloorSecond(trigger) == trigger
    ensures Runs.Reached(w) && Holds(w, Impatient(n, trigger))
  {
    if n == 0 {
      var r := Impatient(0, trigger);
      var cmd := CreateCommand(r.id, r.targets, r.schedule, r.policy, r.meta);
      ImpatientIsStored(0, trigger);
      Runs.StartIsReached();
      Runs.StepReaches(Runs.Start([]), Runs.Create(cmd, trigger));
      w := Runs.Step(Runs.Start([]), Runs.Create(cmd, trigger));
    } else {
      var before := ImpatientIsReached(n - 1, trigger);
      w := ImpatientTicks(before, n - 1, trigger);
    }
  }

  lemma ImpatientTicks(w: World, n: nat, trigger: Time) returns (w': World)
    requires FloorSecond(trigger) == trigger && Runs.Reached(w) && Holds(w, Impatient(n, trigger))
    ensures Runs.Reached(w') && Holds(w', Impatient(n + 1, trigger))
  {
    var now := trigger + Course(n);
    ImpatientIsStored(n, trigger);
    ImpatientStep(n, trigger);
    hide Course, FloorSecond, SqlDue, After, S.Tick, Stored;
    assert CanTick(w, ["r"], now);
    Runs.StepReaches(w, Runs.Tick(["r"], now));
    OneTickFollows(w, ["r"], now, "r");
    w' := S.Tick(w, ["r"], now).0;
    forall id | id != "r" ensures id !in w'.rows {
      GoneStaysGone(w, ["r"], now, id);
    }
    assert RowAt(w'.rows, "r") == Some(Impatient(n + 1, trigger));
  }

  /** Two ticks that are too close are hit by the notifications of an annoying reminder due at the first of them. */
  lemma TooCloseIsHit(ticks: seq<Time>, i: nat, j: nat, trigger: Time)
    requires Ascending(ticks) && FirstOfSecond(ticks, i) && FirstFrom(ticks, FloorSecond(ticks[i]) + 5 * MINUTE, j)
    requires ticks[j] - ticks[i] < 5 * MINUTE && trigger + Course(6) == FloorSecond(ticks[i])
    requires WellStored(Impatient(6, trigger), "r")
    ensures !FiveMinutesApart(Trajectory(Some(Impatient(6, trigger)), ticks))
  {
    var r := Impatient(6, trigger);
    hide Course;
    assert FirstFrom(ticks, NextDue(r), i);
    FiresNext(r, ticks, i);
    ImpatientFires(r, ticks[i]);
    var next, rest := After(r, ticks[i]).value, ticks[i + 1..];
    if j <= i {
      FloorsAscend(ticks, j, i);
    }
    assert rest[j - i - 1] == ticks[j] && forall h :: 0 <= h < j - i - 1 ==> rest[h] == ticks[i + 1 + h];
    FiresNext(next, rest, j - i - 1);
    var ts := Trajectory(Some(r), ticks);
    assert ts[0] == ticks[i] && ts[1] == ticks[j];
  }

  lemma CourseOfSix()
    ensures Course(6) == 70 * MINUTE
  {
    assert Course(1) == 15 * MINUTE && Course(2) == 30 * MINUTE && Course(3) == 43 * MINUTE && Course(4) == 54 * MINUTE;
  }

  /**
   * The documented shortest interval of 5 minutes holds to the nanosecond for every escalating reminder exactly if
   * it holds between any tick that is the first of its second and the first tick whose second is 300 seconds on.
   */
  lemma AlwaysSpacedIffWellSpaced(ticks: seq<Time>)
    requires Ascending(ticks)
    ensures AlwaysSpaced(ticks) <==> WellSpaced(ticks)
  {
    hide Fires, After, Trajectory, FloorSecond, Stored;
    if WellSpaced(ticks) {
      forall w, id | Runs.Reached(w) && id in w.rows && Escalates(w.rows[id])
        ensures FiveMinutesApart(Trajectory(Some(w.rows[id]), ticks))
      {
        Runs.ReachedIsGood(w);
        Runs.InvRows(w);
        SpacedFrom(w.rows[id], ticks, 0, None);
        assert ticks[0..] == ticks && [] + Trajectory(Some(w.rows[id]), ticks) == Trajectory(Some(w.rows[id]), ticks);
      }
    } else {
      var i: nat, j: nat :| FirstOfSecond(ticks, i) && FirstFrom(ticks, FloorSecond(ticks[i]) + 5 * MINUTE, j)
                            && ticks[j] - ticks[i] < 5 * MINUTE;
      var trigger := FloorSecond(ticks[i]) - Course(6);
      WholeTrigger(ticks[i]);
      ImpatientIsStored(6, trigger);
      var w := ImpatientIsReached(6, trigger);
      TooCloseIsHit(ticks, i, j, trigger);
    }
  }

  lemma WholeTrigger(t: Time)
    ensures FloorSecond(FloorSecond(t) - Course(6)) == FloorSecond(t) - Course(6)
  {
    CourseOfSix();
    hide Course;
  }

  /** In particular when all ticks fall on the same fraction of a second, such as on whole seconds. */
  lemma SteadyTicksAreWellSpaced(ticks: seq<Time>, fraction: Duration)
    requires Ascending(ticks) && forall t :: t in ticks ==> t % SECOND == fraction
    ensures WellSpaced(ticks) && AlwaysSpaced(ticks)
  {
    forall i: nat, j: nat | FirstOfSecond(ticks, i) && FirstFrom(ticks, FloorSecond(ticks[i]) + 5 * MINUTE, j)
      ensures ticks[j] - ticks[i] >= 5 * MINUTE
    {
      assert ticks[i] in ticks && ticks[j] in ticks;
    }
    AlwaysSpacedIffWellSpaced(ticks);
  }

  /**
   * Ticks that are not: a reminder is due for the seventh time at 70 minutes and notified 0.9 s later, the store keeps
   * the next run without that fraction, and the next tick is 299.1 s later.
   */
  lemma GapOfLessThanFiveMinutes() returns (w: World, id: ReminderId, ticks: seq<Time>)
    ensures Runs.Reached(w) && id in w.rows && Escalates(w.rows[id])
    ensures Trajectory(Some(w.rows[id]), ticks) == ticks && |ticks| == 2 && ticks[0] < ticks[1] < ticks[0] + 5 * MINUTE
  {
    w := ImpatientIsReached(6, 0);
    id := "r";
    ImpatientIsStored(6, 0);
    CourseOfSix();
    hide Course;
    var r, now := Impatient(6, 0), 70 * MINUTE + 9 * SECOND / 10;
    ticks := [now, 75 * MINUTE];
    ImpatientFires(r, now);
    var next := After(r, now);
    assert ticks[1..] == [75 * MINUTE] && ticks[1..][1..] == [];
    ImpatientFires(next.value, 75 * MINUTE);
    TrajectoryNow(After(next.value, 75 * MINUTE));
    assert Trajectory(next, ticks[1..]) == [75 * MINUTE];
  }

  lemma DelayIsWhole(r: Reminder)
    ensures FloorSecond(r.RepeatDelay()) == r.RepeatDelay()
  {
    var ep := PolicyForProfile(r.policy.profile);
    if r.state.fireCount != 1 && ep.decreaseStep > 0 {
      var steps := 15 * 60 - (r.state.fireCount - 2) * 120;
      assert ep.repeatInterval - (r.state.fireCount - 2) * ep.decreaseStep == steps * SECOND;
    }
  }

  // ---- Profiles compared ----

  /** How patient a profile is: annoying before normal (and any unknown name) before quiet. */
  function Patience(p: Profile): nat {
    if p == ANNOYING then 0 else if p == QUIET then 2 else 1
  }

  lemma PatienceOrdersDelays(fast: Reminder, slow: Reminder)
    requires Patience(fast.policy.profile) <= Patience(slow.policy.profile)
    requires 1 <= fast.state.fireCount == slow.state.fireCount
    ensures fast.RepeatDelay() <= slow.RepeatDelay()
  {
  }

  function NextDue(r: Reminder): Time {
    if r.schedule.nextRunAt.Some? then r.schedule.nextRunAt.value else r.schedule.triggerAt
  }

  /**
   * The first reminder is at least as far along as the second: pending lists its notifications the other has
   * not caught up with; with none pending it is due no later, otherwise it is due its delay after the last.
   */
  ghost predicate Ahead(fast: Reminder, slow: Reminder, pending: seq<Time>) {
    && WellStored(fast, fast.id) && WellStored(slow, slow.id) && Escalates(fast) && Escalates(slow)
    && Patience(fast.policy.profile) <= Patience(slow.policy.profile) && fast.policy.profile != QUIET
    && fast.schedule.validUntil == slow.schedule.validUntil
    && fast.state.fireCount == slow.state.fireCount + |pending|
    && (pending == [] ==> NextDue(fast) <= NextDue(slow))
    && (pending != [] ==> NextDue(fast) == FloorSecond(pending[|pending| - 1] + fast.RepeatDelay()))
  }

  /** The n-th of the first comes no later than the n-th of the second, for every n the second reaches. */
  ghost predicate NoLater(first: seq<Time>, second: seq<Time>) {
    |second| <= |first| && forall n :: 0 <= n < |second| ==> first[n] <= second[n]
  }

  /** Not quiet: it fires whenever it is due and has not expired. */
  lemma LoudFires(r: Reminder, now: Time)
    requires WellStored(r, r.id) && Escalates(r) && r.policy.profile != QUIET
    ensures Fires(r, now) <==> NextDue(r) <= FloorSecond(now) && !r.IsExpired(now)
    ensures After(r, now) == None ==> r.IsExpired(now)
    ensures After(r, now).Some? && !Fires(r, now) ==> After(r, now) == Some(r)
  {
  }

  lemma {:induction false} ExpiredIsSilent(row: Option<Reminder>, ticks: seq<Time>)
    requires row.Some? ==> row.value.HasInterval() && forall i :: 0 <= i < |ticks| ==> row.value.IsExpired(ticks[i])
    ensures Trajectory(row, ticks) == []
    decreases |ticks|
  {
    if row.Some? && ticks != [] {
      assert forall i :: 0 <= i < |ticks[1..]| ==> ticks[1..][i] == ticks[i + 1];
      ExpiredIsSilent(After(row.value, ticks[0]), ticks[1..]);
    }
  }

  /** A notification of the fast one is pending until the slow one catches up. */
  lemma FastFires(fast: Reminder, slow: Reminder, pending: seq<Time>, now: Time)
    requires Ahead(fast, slow, pending) && Fires(fast, now)
    ensures After(fast, now).Some? && Ahead(After(fast, now).value, slow, pending + [now])
  {
    AfterFiring(fast, fast.id, now);
    NextRowIsWellStored(fast, fast.id, now);
    SameDelay(fast.Triggered(now), After(fast, now).value);
  }

  lemma SameDelay(r: Reminder, r': Reminder)
    requires r.policy == r'.policy && r.state.fireCount == r'.state.fireCount
    ensures r.RepeatDelay() == r'.RepeatDelay()
  {
  }

  /** The slow one fires at now, with the fast one already ahead; it has caught up with the first pending one. */
  lemma SlowCatchesUp(fast: Reminder, slow: Reminder, pending: seq<Time>, now: Time)
    requires Ahead(fast, slow, pending) && pending != [] && pending[|pending| - 1] <= now && Fires(slow, now)
    ensures After(slow, now).Some? && Ahead(fast, After(slow, now).value, pending[1..])
  {
    hide Reminder.RepeatDelay, PolicyForProfile, FloorSecond, Stored, NextRow;
    AfterFiring(slow, slow.id, now);
    NextRowIsWellStored(slow, slow.id, now);
    var fired := slow.Triggered(now);
    if |pending| == 1 {
      PatienceOrdersDelays(fast, fired);
      FloorSecondAscends(pending[0] + fast.RepeatDelay(), now + fired.RepeatDelay());
    }
  }

  lemma NoLaterCons(first: seq<Time>, second: seq<Time>)
    requires first != [] && second != [] && first[0] <= second[0] && NoLater(first[1..], second[1..])
    ensures NoLater(first, second)
  {
    forall n | 0 <= n < |second| ensures first[n] <= second[n] {
      if n > 0 {
        assert first[n] == first[1..][n - 1] && second[n] == second[1..][n - 1];
      }
    }
  }

  /** What the fast one does at now, unless it has expired. */
  lemma FastTurn(fast: Reminder, slow: Reminder, pending: seq<Time>, now: Time)
    requires Ahead(fast, slow, pending) && !fast.IsExpired(now)
    ensures After(fast, now).Some?
    ensures Ahead(After(fast, now).value, slow, pending + if Fires(fast, now) then [now] else [])
  {
    LoudFires(fast, now);
    if Fires(fast, now) {
      FastFires(fast, slow, pending, now);
    } else {
      assert pending + [] == pending;
    }
  }

  lemma ExpiredTogether(fast: Reminder, slow: Reminder, pending: seq<Time>, ticks: seq<Time>)
    requires Ahead(fast, slow, pending) && ticks != [] && Ascending(ticks) && fast.IsExpired(ticks[0])
    ensures Trajectory(Some(slow), ticks) == []
  {
    forall i | 0 <= i < |ticks| ensures slow.IsExpired(ticks[i]) {
      assert i > 0 ==> ticks[0] <= ticks[i];
    }
    ExpiredIsSilent(Some(slow), ticks);
  }

  /** What the trajectory of a stored reminder starts with. */
  lemma TrajectoryStarts(r: Reminder, ticks: seq<Time>)
    requires r.HasInterval() && ticks != []
    ensures Trajectory(Some(r), ticks) ==
            (if Fires(r, ticks[0]) then [ticks[0]] else []) + Trajectory(After(r, ticks[0]), ticks[1..])
  {
  }

  lemma AscendingRest(ticks: seq<Time>)
    requires Ascending(ticks) && ticks != []
    ensures Ascending(ticks[1..]) && forall t :: t in ticks[1..] ==> ticks[0] <= t
  {
    var rest := ticks[1..];
    assert forall i :: 0 <= i < |rest| ==> rest[i] == ticks[i + 1];
  }

  lemma {:induction false} FastStaysAhead(fast: Reminder, slow: Reminder, pending: seq<Time>, ticks: seq<Time>)
    requires Ahead(fast, slow, pending) && Ascending(ticks)
    requires forall t, tick :: t in pending && tick in ticks ==> t <= tick
    ensures fast.HasInterval() && slow.HasInterval()
    ensures NoLater(pending + Trajectory(Some(fast), ticks), Trajectory(Some(slow), ticks))
    decreases |ticks|
  {
    hide Ahead, Fires, After, Trajectory, NoLater, Ascending, Reminder.HasInterval, Reminder.IsExpired;
    AheadHasIntervals(fast, slow, pending);
    if ticks == [] {
      TrajectoryNow(Some(slow));
      NothingIsLater(pending + Trajectory(Some(fast), ticks));
    } else if fast.IsExpired(ticks[0]) {
      ExpiredTogether(fast, slow, pending, ticks);
      NothingIsLater(pending + Trajectory(Some(fast), ticks));
    } else {
      var now, rest := ticks[0], ticks[1..];
      FastTurn(fast, slow, pending, now);
      TrajectoryStarts(fast, ticks);
      TrajectoryStarts(slow, ticks);
      AscendingRest(ticks);
      var fired := if Fires(fast, now) then [now] else [];
      var fast', pending' := After(fast, now).value, pending + fired;
      assert now in ticks;
      assert pending + (fired + Trajectory(Some(fast'), rest)) == pending' + Trajectory(Some(fast'), rest);
      if !Fires(slow, now) {
        SlowWaits(slow, now);
        assert [] + Trajectory(After(slow, now), rest) == Trajectory(After(slow, now), rest);
        if After(slow, now).Some? {
          FastStaysAhead(fast', slow, pending', rest);
        } else {
          TrajectoryOfNone(rest);
          NothingIsLater(pending' + Trajectory(Some(fast'), rest));
        }
      } else {
        FastIsPending(fast, slow, pending, now);
        assert pending'[0] in pending' && pending'[|pending'| - 1] in pending';
        assert forall t :: t in pending'[1..] ==> t in pending';
        SlowCatchesUp(fast', slow, pending', now);
        FastStaysAhead(fast', After(slow, now).value, pending'[1..], rest);
        FirstsMatch(now, pending', Trajectory(Some(fast'), rest), Trajectory(After(slow, now), rest));
      }
    }
  }

  lemma NothingIsLater(first: seq<Time>)
    ensures NoLater(first, [])
  {
  }

  lemma AheadHasIntervals(fast: Reminder, slow: Reminder, pending: seq<Time>)
    requires Ahead(fast, slow, pending)
    ensures fast.HasInterval() && slow.HasInterval()
  {
  }

  /** When the slow one fires the fast one has a notification to match it with, an earlier one or one at now. */
  lemma FastIsPending(fast: Reminder, slow: Reminder, pending: seq<Time>, now: Time)
    requires Ahead(fast, slow, pending) && Fires(slow, now)
    ensures pending == [] ==> Fires(fast, now)
  {
    LoudFires(fast, now);
  }

  lemma SlowWaits(slow: Reminder, now: Time)
    requires slow.HasInterval() && !Fires(slow, now)
    ensures After(slow, now).Some? ==> After(slow, now) == Some(slow)
  {
  }

  lemma FirstsMatch(now: Time, pending: seq<Time>, first: seq<Time>, second: seq<Time>)
    requires pending != [] && pending[0] <= now && NoLater(pending[1..] + first, second)
    ensures NoLater(pending + first, [now] + second)
  {
    assert (pending + first)[1..] == pending[1..] + first && ([now] + second)[1..] == second;
    NoLaterCons(pending + first, [now] + second);
  }

  /**
   * Of two unacknowledged one-time reminders that differ only in profile, the n-th notification under the less
   * patient profile comes no later than under the more patient one, for every n the latter reaches and any
   * non-decreasing ticks: annoying before normal before quiet.
   */
  lemma LessPatientIsNoLater(fast: Reminder, slow: Reminder, ticks: seq<Time>)
    requires WellStored(fast, fast.id) && WellStored(slow, slow.id) && Escalates(fast) && Ascending(ticks)
    requires slow.schedule == fast.schedule && slow.state == fast.state && slow.policy.requiresAck
    requires Patience(fast.policy.profile) < Patience(slow.policy.profile)
    ensures NoLater(Trajectory(Some(fast), ticks), Trajectory(Some(slow), ticks))
  {
    FastStaysAhead(fast, slow, [], ticks);
    assert [] + Trajectory(Some(fast), ticks) == Trajectory(Some(fast), ticks);
  }
}
