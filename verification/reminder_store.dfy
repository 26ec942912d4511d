/**
 * The reminder store and the notifier as one outside world whose calls can fail (reminders_repo.go, conversion.go,
 * reminders.sql), and what each operation of the manager does to it (manager.go).
 */
module ReminderStore {
  import opened Options
  import opened Outcomes
  import opened PriceSlots
  import opened Reminders

  // ---- What the tables keep: whole seconds ----

  function FloorSecond(t: Time): Time {
    t - t % SECOND
  }

  /** Durations lose their fraction toward zero. */
  function TruncateSecond(d: Duration): Duration {
    if d >= 0 then FloorSecond(d) else -FloorSecond(-d)
  }

  function FloorOption(t: Option<Time>): Option<Time> {
    if t.Some? then Some(FloorSecond(t.value)) else None
  }

  /** A reminder as it comes back from the store after being saved. */
  function Stored(r: Reminder): Reminder {
    r.(schedule := r.schedule.(triggerAt := FloorSecond(r.schedule.triggerAt),
                               nextRunAt := FloorOption(r.schedule.nextRunAt),
                               recurEvery := if r.schedule.recurEvery.Some? then
                                               Some(TruncateSecond(r.schedule.recurEvery.value))
                                             else None,
                               validUntil := FloorOption(r.schedule.validUntil)),
       acks := seq(|r.acks|, i requires 0 <= i < |r.acks| => r.acks[i].(ackedAt := FloorSecond(r.acks[i].ackedAt))),
       state := r.state.(lastFiredAt := FloorOption(r.state.lastFiredAt), createdAt := FloorSecond(r.state.createdAt),
                         updatedAt := FloorSecond(r.state.updatedAt)))
  }

  // ---- The world and its single calls ----

  /** What has happened so far that the outside can see: stored creations and delivered notifications. */
  datatype Entry = Created(reminder: Reminder) | Sent(id: ReminderId, to: set<UserId>, body: string, at: Time)

  /**
   * script: the outcomes of the coming calls; once it is used up they are all acknowledged. failures counts the calls
   * that have reported an error so far.
   */
  datatype World = World(rows: map<ReminderId, Reminder>, log: seq<Entry>, script: seq<Outcome>, failures: nat) {
    function NextOutcome(): Outcome {
      if script == [] then Acked else script[0]
    }

    /** The next call reports an error. */
    predicate NextFails() {
      NextOutcome() != Acked
    }

    /** The next call takes effect, whatever it reports. */
    predicate TakesEffect() {
      NextOutcome() != Lost
    }

    /** The world after one call was made, whatever it was. */
    function Called(): World {
      this.(script := if script == [] then [] else script[1..],
            failures := if NextFails() then failures + 1 else failures)
    }
  }

  /** The upsert keeps the creation time of an existing row. */
  function Save(w: World, r: Reminder): (World, bool) {
    var row := Stored(r);
    var kept := if r.id in w.rows then row.(state := row.state.(createdAt := w.rows[r.id].state.createdAt)) else row;
    (if w.TakesEffect() then w.Called().(rows := w.rows[r.id := kept]) else w.Called(), !w.NextFails())
  }

  function Remove(w: World, id: ReminderId): (World, bool) {
    (if w.TakesEffect() then w.Called().(rows := w.rows - {id}) else w.Called(), !w.NextFails())
  }

  function GetById(w: World, id: ReminderId): (World, Result<Reminder>) {
    if w.NextFails() then (w.Called(), Err(BackendFailed))
    else (w.Called(), if id in w.rows then Ok(w.rows[id]) else Err(NotFound))
  }

  function Notify(w: World, r: Reminder, now: Time): (World, bool) {
    var sent := w.Called().(log := w.log + [Sent(r.id, r.targets, r.meta.message, now)]);
    (if w.TakesEffect() then sent else w.Called(), !w.NextFails())
  }

  /** The SELECT predicate of ListRemindersDueBefore, at the Unix second of now. */
  predicate SqlDue(r: Reminder, now: Time) {
    || (r.schedule.nextRunAt.Some? && r.schedule.nextRunAt.value <= FloorSecond(now))
    || (r.schedule.nextRunAt.None? && r.schedule.triggerAt <= FloorSecond(now))
  }

  /** An order in which the due rows may come back: each once, no promise about the order. */
  ghost predicate IsListing(order: seq<ReminderId>, rows: map<ReminderId, Reminder>, now: Time) {
    && (forall i, j :: 0 <= i < j < |order| ==> order[i] != order[j])
    && (forall id :: id in order <==> id in rows && SqlDue(rows[id], now))
  }

  // ---- The operations of the manager ----

  function Create(w: World, cmd: CreateCommand, now: Time): (World, Result<Reminder>) {
    match New(cmd, now)
    case Err(e) => (w, Err(e))
    case Ok(r) =>
      var (w', ok) := Save(w, r);
      (if w.TakesEffect() then w'.(log := w'.log + [Created(r)]) else w', if ok then Ok(r) else Err(BackendFailed))
  }

  function Ack(w: World, id: ReminderId, user: UserId, now: Time): (World, bool) {
    var (w', loaded) := GetById(w, id);
    if loaded.Err? then (w', false)
    else
      var acked := loaded.value.Acknowledged(user, now);
      if acked.None? then (w', false)
      else if acked.value.IsComplete() then Remove(w', id)
      else Save(w', acked.value)
  }

  function Delete(w: World, id: ReminderId): (World, bool) {
    Remove(w, id)
  }

  /** Fired for the last time without being told: an ack is required and the repeats are used up. */
  predicate Exhausted(r: Reminder, now: Time)
    requires r.HasInterval()
  {
    r.policy.requiresAck && r.Triggered(now).schedule.nextRunAt.None?
  }

  /** How a tick ends; Panicked: Trigger reads the interval of a recurring reminder that has none. */
  datatype TickEnd = Finished | Aborted | Panicked

  function EndOf(call: (World, bool)): (World, TickEnd) {
    (call.0, if call.1 then Finished else Aborted)
  }

  /** One turn of the loop in Tick. */
  function TickOne(w: World, r: Reminder, now: Time): (World, TickEnd) {
    if r.IsExpired(now) then EndOf(Remove(w, r.id))
    else if !r.HasInterval() then (w, Panicked)
    else
      var fired := r.Triggered(now);
      if Exhausted(r, now) then EndOf(Remove(w, r.id))
      else
        var (w', told) := Notify(w, fired, now);
        if !told then (w', Aborted)
        else if fired.schedule.nextRunAt.None? then EndOf(Remove(w', r.id))
        else EndOf(Save(w', fired))
  }

  function TickAll(w: World, due: seq<Reminder>, now: Time): (World, TickEnd)
    decreases |due|
  {
    if due == [] then (w, Finished)
    else
      var (w', end) := TickOne(w, due[0], now);
      if end == Finished then TickAll(w', due[1..], now) else (w', end)
  }

  function RowsOf(rows: map<ReminderId, Reminder>, order: seq<ReminderId>): (due: seq<Reminder>)
    requires forall id :: id in order ==> id in rows
    ensures |due| == |order|
    ensures forall i :: 0 <= i < |order| ==> due[i] == rows[order[i]]
  {
    seq(|order|, i requires 0 <= i < |order| => rows[order[i]])
  }

  /** The loop of Tick over the rows listed in this order. */
  function TickListed(w: World, order: seq<ReminderId>, now: Time): (World, TickEnd)
    requires forall id :: id in order ==> id in w.rows
  {
    TickAll(w, RowsOf(w.rows, order), now)
  }

  function Tick(w: World, order: seq<ReminderId>, now: Time): (World, TickEnd)
    requires forall id :: id in order ==> id in w.rows
  {
    if w.NextFails() then (w.Called(), Aborted) else TickListed(w.Called(), order, now)
  }
}
