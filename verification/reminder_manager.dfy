/** The store, the notifier and the manager as objects changed step by step (reminders_repo.go, manager.go). */
module ReminderManager {
  import opened Outcomes
  import opened PriceSlots
  import opened Reminders
  import S = ReminderStore
  import opened ReminderStore

  class Backend {
    var rows: map<ReminderId, Reminder>
    var script: seq<Outcome>
    ghost var log: seq<Entry>
    ghost var failures: nat

    constructor (script: seq<Outcome>)
      ensures State() == World(map[], [], script, 0)
    {
      rows, this.script, log, failures := map[], script, [], 0;
    }

    ghost function State(): World
      reads this
    {
      World(rows, log, script, failures)
    }

    method Call() returns (outcome: Outcome)
      modifies this
      ensures outcome == old(State()).NextOutcome()
      ensures State() == old(State()).Called()
    {
      outcome := Acked;
      if script != [] {
        outcome, script := script[0], script[1..];
      }
      if outcome != Acked {
        failures := failures + 1;
      }
    }

    method Save(r: Reminder) returns (ok: bool)
      modifies this
      ensures (State(), ok) == S.Save(old(State()), r)
    {
      var outcome := Call();
      ok := outcome == Acked;
      if outcome != Lost {
        var row := Stored(r);
        if r.id in rows {
          row := row.(state := row.state.(createdAt := rows[r.id].state.createdAt));
        }
        rows := rows[r.id := row];
      }
    }

    method Remove(id: ReminderId) returns (ok: bool)
      modifies this
      ensures (State(), ok) == S.Remove(old(State()), id)
    {
      var outcome := Call();
      ok := outcome == Acked;
      if outcome != Lost {
        rows := rows - {id};
      }
    }

    method GetById(id: ReminderId) returns (r: Result<Reminder>)
      modifies this
      ensures (State(), r) == S.GetById(old(State()), id)
    {
      var outcome := Call();
      if outcome != Acked {
        r := Err(BackendFailed);
      } else if id in rows {
        r := Ok(rows[id]);
      } else {
        r := Err(NotFound);
      }
    }

    method Notify(r: Reminder, now: Time) returns (ok: bool)
      modifies this
      ensures (State(), ok) == S.Notify(old(State()), r, now)
    {
      var outcome := Call();
      ok := outcome == Acked;
      if outcome != Lost {
        log := log + [Sent(r.id, r.targets, r.meta.message, now)];
      }
    }

    /** The due rows, in whatever order the database returns them. */
    method ListDueBefore(now: Time) returns (ok: bool, due: seq<Reminder>, ghost order: seq<ReminderId>)
      modifies this
      ensures ok == !old(State()).NextFails() && State() == old(State()).Called()
      ensures ok ==> IsListing(order, rows, now) && due == RowsOf(rows, order)
      ensures !ok ==> order == []
    {
      due, order := [], [];
      var outcome := Call();
      ok := outcome == Acked;
      if !ok {
        return;
      }
      var todo := set id | id in rows && SqlDue(rows[id], now);
      while todo != {}
        invariant todo <= rows.Keys
        invariant forall id :: id in rows && SqlDue(rows[id], now) <==> id in todo || id in order
        invariant forall id :: id in order ==> id !in todo
        invariant forall i, j :: 0 <= i < j < |order| ==> order[i] != order[j]
        invariant due == RowsOf(rows, order)
        decreases todo
      {
        var id :| id in todo;
        due, order, todo := due + [rows[id]], order + [id], todo - {id};
      }
    }
  }

  class Manager {
    const backend: Backend

    constructor (backend: Backend)
      ensures this.backend == backend
    {
      this.backend := backend;
    }

    method Create(cmd: CreateCommand, now: Time) returns (r: Result<Reminder>)
      modifies backend
      ensures (backend.State(), r) == S.Create(old(backend.State()), cmd, now)
    {
      r := New(cmd, now);
      if r.Err? {
        return;
      }
      ghost var before := backend.State();
      var ok := backend.Save(r.value);
      if before.TakesEffect() {
        backend.log := backend.log + [Created(r.value)];
      }
      if !ok {
        return Err(BackendFailed);
      }
    }

    method Ack(id: ReminderId, user: UserId, now: Time) returns (ok: bool)
      modifies backend
      ensures (backend.State(), ok) == S.Ack(old(backend.State()), id, user, now)
    {
      var loaded := backend.GetById(id);
      if loaded.Err? {
        return false;
      }
      var rem := new LiveReminder(loaded.value);
      ok := rem.Acknowledge(user, now);
      if !ok {
        return;
      }
      if rem.Value().IsComplete() {
        ok := backend.Remove(id);
      } else {
        ok := backend.Save(rem.Value());
      }
    }

    method Delete(id: ReminderId) returns (ok: bool)
      modifies backend
      ensures (backend.State(), ok) == S.Delete(old(backend.State()), id)
    {
      ok := backend.Remove(id);
    }

    method Tick(now: Time) returns (end: TickEnd, ghost order: seq<ReminderId>)
      modifies backend
      ensures !old(backend.State()).NextFails() ==> IsListing(order, old(backend.rows), now)
      ensures forall id :: id in order ==> id in old(backend.rows)
      ensures (backend.State(), end) == S.Tick(old(backend.State()), order, now)
    {
      var listed, due;
      listed, due, order := backend.ListDueBefore(now);
      if !listed {
        return Aborted, order;
      }
      end := Finished;
      ghost var start := backend.State();
      for i := 0 to |due|
        invariant end == Finished
        invariant TickAll(start, due, now) == TickAll(backend.State(), due[i..], now)
      {
        assert due[i..][1..] == due[i + 1..];
        ghost var before := backend.State();
        end := TickOne(due[i], now);
        if end != Finished {
          return;
        }
      }
    }

    /** The body of the loop. */
    method TickOne(r: Reminder, now: Time) returns (end: TickEnd)
      modifies backend
      ensures (backend.State(), end) == S.TickOne(old(backend.State()), r, now)
    {
      var rem := new LiveReminder(r);
      if rem.Value().IsExpired(now) {
        var removed := backend.Remove(r.id);
        return if removed then Finished else Aborted;
      }
      var triggered := rem.Trigger(now);
      if !triggered {
        return Panicked;
      }
      if rem.policy.requiresAck && rem.schedule.nextRunAt.None? {
        var removed := backend.Remove(rem.id);
        return if removed then Finished else Aborted;
      }
      var told := backend.Notify(rem.Value(), now);
      if !told {
        return Aborted;
      }
      var kept;
      if rem.schedule.nextRunAt.None? {
        kept := backend.Remove(rem.id);
      } else {
        kept := backend.Save(rem.Value());
      }
      end := if kept then Finished else Aborted;
    }
  }
}
