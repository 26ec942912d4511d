/**
 * What the operations of the manager come to when no call fails (manager.go), in terms of the fields of a stored
 * reminder and of the time alone.
 */
module ReminderOutcomes {
  import opened Options
  import opened PriceSlots
  import opened Reminders
  import S = ReminderStore
  import opened ReminderStore
  import opened ReminderTick

  // ---- Create, Ack and Delete ----

  /** What the store keeps of an instant: its Unix second. */
  function WholeSecond(t: Time): Time {
    t - t % 1_000_000_000
  }

  function WholeSecondOf(t: Option<Time>): Option<Time> {
    if t.Some? then Some(WholeSecond(t.value)) else None
  }

  /** And of a duration: its seconds, a negative one rounded up. */
  function WholeSeconds(d: Option<Duration>): Option<Duration> {
    if d.None? then None else Some(if d.value >= 0 then WholeSecond(d.value) else -WholeSecond(-d.value))
  }

  /**
   * A command is refused exactly for a lack of targets or an unknown kind of schedule, and changes nothing then.
   * Otherwise its reminder is stored in whole seconds as it was asked for, unfired, with the profile "normal" if it
   * names none; one stored under the same id before hands on its creation time and nothing else.
   */
  lemma CreatedAsAsked(w: World, cmd: CreateCommand, at: Time)
    requires w.script == []
    ensures var (w', created) := Create(w, cmd, at);
            if cmd.targets == {} then (w', created) == (w, Err(NoTargets))
            else if cmd.schedule.kind.OtherKind? then (w', created) == (w, Err(InvalidSchedule))
            else
              var s := cmd.schedule;
              var profile := if cmd.policy.profile == "" then "normal" else cmd.policy.profile;
              var since := if cmd.id in w.rows then w.rows[cmd.id].state.createdAt else WholeSecond(at);
              && w' == w.(rows := w'.rows, log := w.log + [Created(created.value)]) && created.Ok?
              && created.value == Reminder(cmd.id, cmd.targets, [], s, DeliveryPolicy(cmd.policy.requiresAck, profile),
                                           State(0, None, at, at), cmd.meta)
              && w'.rows == w.rows[cmd.id := Reminder(
                     cmd.id, cmd.targets, [],
                     Schedule(s.kind, WholeSecond(s.triggerAt), WholeSecondOf(s.nextRunAt), WholeSeconds(s.recurEvery),
                              WholeSecondOf(s.validUntil)),
                     DeliveryPolicy(cmd.policy.requiresAck, profile),
                     State(0, None, since, WholeSecond(at)), cmd.meta)]
  {
    assert w.Called() == w;
    if cmd.targets != {} && !cmd.schedule.kind.OtherKind? {
      assert Stored(New(cmd, at).value).acks == [];
    }
  }

  /** An acknowledgement succeeds exactly for a target of a stored reminder, and then deletes it. */
  lemma AckedIff(w: World, id: ReminderId, user: UserId, at: Time)
    requires w.script == []
    ensures var (w', ok) := S.Ack(w, id, user, at);
            && (ok <==> id in w.rows && user in w.rows[id].targets)
            && w' == if ok then w.(rows := w.rows - {id}) else w
  {
    assert w.Called() == w;
    if id in w.rows {
      AckCompletes(w.rows[id], user, at);
    }
  }

  lemma DeletedIsGone(w: World, id: ReminderId)
    requires w.script == []
    ensures S.Delete(w, id) == (w.(rows := w.rows - {id}), true)
  {
    assert w.Called() == w;
  }

  // ---- Tick ----

  /** When the reminder is to run. */
  function DueAt(r: Reminder): Time {
    if r.schedule.nextRunAt.Some? then r.schedule.nextRunAt.value else r.schedule.triggerAt
  }

  predicate StillValid(r: Reminder, now: Time) {
    r.schedule.validUntil == None || now <= r.schedule.validUntil.value
  }

  /** A quiet reminder that waits for an acknowledgement is dropped instead of being sent for the third time. */
  predicate Spent(r: Reminder) {
    r.schedule.kind != Recurring && r.policy == DeliveryPolicy(true, "quiet") && r.state.fireCount >= 2
  }

  predicate IsTold(r: Reminder, now: Time) {
    DueAt(r) <= now && StillValid(r, now) && !Spent(r)
  }

  /** It has another run to come, once it has been sent. */
  predicate RunsAgain(r: Reminder) {
    r.schedule.kind == Recurring || r.policy.requiresAck
  }

  /** Sent once more at now, and due again after its interval or the documented delay. */
  function Advanced(r: Reminder, now: Time): Reminder
    requires r.HasInterval()
  {
    var delay := if r.schedule.kind == Recurring then r.schedule.recurEvery.value
                 else DocumentedDelay(r.policy.profile, r.state.fireCount + 1);
    r.(schedule := r.schedule.(nextRunAt := Some(WholeSecond(now + delay))),
       state := State(r.state.fireCount + 1, Some(WholeSecond(now)), r.state.createdAt, WholeSecond(now)))
  }

  lemma StoredFields(r: Reminder, id: ReminderId, now: Time)
    requires WellStored(r, id)
    ensures Stored(r.Triggered(now)).schedule == r.schedule.(nextRunAt := FloorOption(r.Triggered(now).schedule.nextRunAt))
    ensures Stored(r.Triggered(now)).state == State(r.state.fireCount + 1, Some(FloorSecond(now)), r.state.createdAt,
                                                    FloorSecond(now))
    ensures Stored(r.Triggered(now)).acks == []
  {
    assert Stored(r).schedule == r.schedule && Stored(r).state == r.state;
    hide FloorSecond, TruncateSecond, Reminder.NextRunAfter;
  }

  /** What a tick makes of one due row. */
  lemma NextRowOf(r: Reminder, id: ReminderId, now: Time)
    requires WellStored(r, id)
    ensures Tells(r, now) <==> StillValid(r, now) && !Spent(r)
    ensures NextRow(r, now) == if Tells(r, now) && RunsAgain(r) then Some(Advanced(r, now)) else None
  {
    hide Stored;
    NextRunByProfile(r, now);
    StoredFields(r, id, now);
    if NextRow(r, now).Some? {
      assert Stored(r.Triggered(now)) == Advanced(r, now) by {
        SameStored(r, r.Triggered(now));
      }
    }
  }

  lemma SameStored(r: Reminder, fired: Reminder)
    requires fired.id == r.id && fired.targets == r.targets && fired.policy == r.policy && fired.meta == r.meta
    ensures var s := Stored(fired); s.id == r.id && s.targets == r.targets && s.policy == r.policy && s.meta == r.meta
  {
  }

  /**
   * A tick sends exactly the reminders that are due, still valid and not spent, each once and with its targets and its
   * message. Of the due ones it keeps those that were sent and run again, advanced; all others it deletes. What is
   * not due stays as it is.
   */
  lemma TickSendsWhatIsDue(w: World, order: seq<ReminderId>, now: Time, id: ReminderId)
    requires CanTick(w, order, now) && w.script == []
    ensures id in w.rows ==> w.rows[id].HasInterval()
    ensures var (w', end) := Tick(w, order, now);
            && end == Finished && w.log <= w'.log && (forall e :: e in w'.log[|w.log|..] ==> e.Sent?)
            && if id !in w.rows then id !in w'.rows && SentTo(w'.log, id) == SentTo(w.log, id)
               else
                 var r := w.rows[id];
                 && SentTo(w'.log, id) ==
                    SentTo(w.log, id) + (if IsTold(r, now) then [Sent(id, r.targets, r.meta.message, now)] else [])
                 && RowAt(w'.rows, id) ==
                    if DueAt(r) > now then Some(r)
                    else if IsTold(r, now) && RunsAgain(r) then Some(Advanced(r, now))
                    else None
  {
    hide Tick, NextRow, Tells, Stored, Advanced, SqlDue, StillValid, Spent, RunsAgain;
    var k := TickOutcome(w, order, now);
    assert order[..k] == order;
    ToldAreSent(w.rows, order, now);
    ToldOnce(w.rows, order, now, id);
    SentToAppend(w.log, Told(w.rows, order, now), id);
    if id in w.rows {
      SqlAgreesWithIsDue(w.rows[id], id, now);
      NextRowOf(w.rows[id], id, now);
      if id in order {
        var i :| 0 <= i < |order| && order[i] == id;
      }
      assert RowAt(Tick(w, order, now).0.rows, id) == if id in order then NextRow(w.rows[id], now) else Some(w.rows[id]);
    } else {
      assert RowAt(Tick(w, order, now).0.rows, id) == RowAt(w.rows, id);
    }
  }

  lemma {:induction false} ToldAreSent(rows: map<ReminderId, Reminder>, order: seq<ReminderId>, now: Time)
    requires forall id :: id in order ==> id in rows && rows[id].HasInterval()
    ensures forall e :: e in Told(rows, order, now) ==> e.Sent?
    decreases |order|
  {
    hide Tells;
    if order != [] {
      ToldAreSent(rows, order[1..], now);
    }
  }
}
