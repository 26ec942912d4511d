/** The reminder handler as an object over the manager and the runtime (handler.go). */
module ReminderHandler {
  import opened Options
  import opened Outcomes
  import opened PriceSlots
  import opened Reminders
  import W = ReminderStore
  import opened ReminderManager
  import opened ReminderOutcomes
  import opened Topics
  import R = EntityRuntime
  import opened EntityObjects
  import S = ReminderSync
  import opened ReminderSync

  /** A create message once its times and durations have been parsed. */
  datatype CreateMessage = CreateMessage(
    id: ReminderId, targets: set<UserId>, triggerAt: Time, recurEvery: Option<Duration>, validUntil: Option<Time>,
    requiresAck: bool, profile: Profile, meta: Metadata)

  /** The command for the manager, which is the only one to create reminders; a recurring one has its interval. */
  function CommandFrom(m: CreateMessage): (cmd: CreateCommand)
    ensures cmd.HasInterval() && !cmd.schedule.kind.OtherKind?
    ensures cmd.schedule.kind == Recurring <==> m.recurEvery.Some?
  {
    var once := Schedule(Once, m.triggerAt, None, None, m.validUntil);
    var schedule := if m.recurEvery.Some? then once.(kind := Recurring, recurEvery := m.recurEvery) else once;
    CreateCommand(m.id, m.targets, schedule, DeliveryPolicy(m.requiresAck, m.profile), m.meta)
  }

  /**
   * What a message asks for reaches the store: a message without targets changes nothing, and any other leads to a row,
   * in whole seconds, with its targets, times, need for an acknowledgement, profile, or "normal", and metadata.
   */
  lemma MessageReachesTheStore(w: W.World, m: CreateMessage, at: Time)
    requires w.script == []
    ensures var (w', created) := W.Create(w, CommandFrom(m), at);
            if m.targets == {} then w' == w && created.Err?
            else
              && created.Ok? && m.id in w'.rows && w'.rows == w.rows[m.id := w'.rows[m.id]]
              && var row := w'.rows[m.id];
                 && row.id == m.id && row.targets == m.targets && row.acks == [] && row.meta == m.meta
                 && row.schedule == Schedule(if m.recurEvery.Some? then Recurring else Once, WholeSecond(m.triggerAt), None,
                                             WholeSeconds(m.recurEvery), WholeSecondOf(m.validUntil))
                 && row.policy == DeliveryPolicy(m.requiresAck, if m.profile == "" then "normal" else m.profile)
                 && row.state.fireCount == 0 && row.state.lastFiredAt == None
  {
    CreatedAsAsked(w, CommandFrom(m), at);
    hide W.Create;
  }

  class Handler {
    const manager: Manager
    const runtime: Runtime
    var switches: map<ReminderId, SwitchEntry>

    constructor (manager: Manager, runtime: Runtime)
      ensures this.manager == manager && this.runtime == runtime
      ensures Value() == HandlerState(manager.backend.State(), map[], runtime.Value())
    {
      this.manager, this.runtime, switches := manager, runtime, map[];
    }

    ghost function Value(): HandlerState
      reads this, manager.backend, runtime, runtime.mqtt, runtime.registry
    {
      HandlerState(manager.backend.State(), switches, runtime.Value())
    }

    function Cfg(): R.Config {
      runtime.Settings()
    }

    method DeclareEntity(rem: Reminder) returns (ok: bool)
      modifies this, runtime, runtime.mqtt, runtime.registry
      ensures (Value(), ok) == S.DeclareEntity(Cfg(), old(Value()), rem)
    {
      hide R.Declare, R.SetState, EntityKey, SwitchName, SwitchDiscovery, EntityIsOff;
      var name := SwitchName(rem.meta.message);
      var declared := runtime.Declare(R.Spec(EntityKey(rem.id), Switch, name, SwitchDiscovery(name)));
      if declared.None? {
        return false;
      }
      var isOff := EntityIsOff(rem);
      var _ := runtime.SetState(declared.value, R.BoolPayload(!isOff));
      ok := runtime.OnCommand(declared.value, R.Handler(rem.id, rem.meta.owner));
      if !ok {
        return;
      }
      switches := switches[rem.id := SwitchEntry(declared.value, isOff)];
    }

    /** All stored reminders, in whatever order the database returns them. */
    method List() returns (ok: bool, rems: seq<Reminder>, ghost listed: seq<ReminderId>)
      modifies manager.backend
      ensures ok == !old(manager.backend.State()).NextFails()
      ensures manager.backend.State() == old(manager.backend.State()).Called()
      ensures R.IsListing(listed, manager.backend.rows.Keys)
      ensures (forall id :: id in listed ==> id in manager.backend.rows) && rems == W.RowsOf(manager.backend.rows, listed)
    {
      var outcome := manager.backend.Call();
      ok := outcome == Acked;
      var keys := Keys(manager.backend.rows);
      listed := keys;
      rems := W.RowsOf(manager.backend.rows, keys);
    }

    method SyncEntities() returns (ghost gone: seq<ReminderId>, ghost listed: seq<ReminderId>)
      modifies this, manager.backend, runtime, runtime.mqtt, runtime.registry
      ensures R.IsListing(gone, old(switches).Keys) && R.IsListing(listed, old(manager.backend.rows).Keys)
      ensures forall id :: id in listed ==> id in old(manager.backend.rows)
      ensures Value() == S.Sync(Cfg(), old(Value()), gone, listed)
    {
      hide R.Remove, EntityKey, S.SyncGone, S.SyncRows;
      var inMap := Keys(switches);
      gone := inMap;
      var ok, rems;
      ok, rems, listed := List();
      if !ok {
        return;
      }
      RemoveGone(inMap);
      DeclareOrUpdate(rems);
    }

    /** The first loop. */
    method RemoveGone(inMap: seq<ReminderId>)
      modifies this, runtime, runtime.mqtt, runtime.registry
      ensures Value() == S.SyncGone(Cfg(), old(Value()), inMap)
    {
      hide R.Remove, EntityKey;
      for i := 0 to |inMap|
        invariant Value().world == old(Value()).world
        invariant S.SyncGone(Cfg(), old(Value()), inMap) == S.SyncGone(Cfg(), Value(), inMap[i..])
      {
        assert inMap[i..][1..] == inMap[i + 1..];
        if inMap[i] !in manager.backend.rows {
          var _ := runtime.Remove(EntityKey(inMap[i]));
          switches := switches - {inMap[i]};
        }
      }
    }

    /** The second loop. */
    method DeclareOrUpdate(rems: seq<Reminder>)
      modifies this, runtime, runtime.mqtt, runtime.registry
      ensures Value() == S.SyncRows(Cfg(), old(Value()), rems)
    {
      hide S.SyncOne;
      for i := 0 to |rems|
        invariant S.SyncRows(Cfg(), old(Value()), rems) == S.SyncRows(Cfg(), Value(), rems[i..])
      {
        assert rems[i..][1..] == rems[i + 1..];
        UpdateOne(rems[i]);
      }
    }

    method UpdateOne(rem: Reminder)
      modifies this, runtime, runtime.mqtt, runtime.registry
      ensures Value() == S.SyncOne(Cfg(), old(Value()), rem)
    {
      hide S.DeclareEntity, R.SetState, EntityIsOff;
      if rem.id !in switches {
        var _ := DeclareEntity(rem);
        return;
      }
      var entry, wantOff := switches[rem.id], EntityIsOff(rem);
      if entry.isOff == wantOff {
        return;
      }
      var _ := runtime.SetState(entry.key, R.BoolPayload(!wantOff));
      switches := switches[rem.id := SwitchEntry(entry.key, wantOff)];
    }

    method HandleCreate(m: CreateMessage, now: Time)
      modifies this, manager.backend, runtime, runtime.mqtt, runtime.registry
      ensures var (w', created) := W.Create(old(manager.backend.State()), CommandFrom(m), now);
              var after := old(Value()).(world := w');
              Value() == if created.Ok? then S.DeclareEntity(Cfg(), after, created.value).0 else after
    {
      hide S.DeclareEntity, W.Create;
      var created := manager.Create(CommandFrom(m), now);
      if created.Ok? {
        var _ := DeclareEntity(created.value);
      }
    }

    method HandleAck(id: ReminderId, user: UserId, now: Time)
      returns (ghost gone: seq<ReminderId>, ghost listed: seq<ReminderId>)
      modifies this, manager.backend, runtime, runtime.mqtt, runtime.registry
      ensures var (w', ok) := W.Ack(old(manager.backend.State()), id, user, now);
              var after := old(Value()).(world := w');
              if ok then
                && R.IsListing(gone, after.switches.Keys) && R.IsListing(listed, w'.rows.Keys)
                && (forall x :: x in listed ==> x in w'.rows)
                && Value() == S.Sync(Cfg(), after, gone, listed)
              else Value() == after
    {
      hide S.Sync, W.Ack;
      gone, listed := [], [];
      var ok := manager.Ack(id, user, now);
      if ok {
        gone, listed := SyncEntities();
      }
    }

    /** What the callback of a switch does when its command arrives. */
    method HandleCommand(c: R.Handler, on: bool, now: Time)
      returns (ghost gone: seq<ReminderId>, ghost listed: seq<ReminderId>)
      modifies this, manager.backend, runtime, runtime.mqtt, runtime.registry
      ensures var (w', ok) := W.Ack(old(manager.backend.State()), c.reminder, c.owner, now);
              && (forall x :: x in listed ==> x in w'.rows)
              && (on && ok ==> R.IsListing(gone, old(switches).Keys) && R.IsListing(listed, w'.rows.Keys))
              && Value() == S.Callback(Cfg(), old(Value()), c, on, now, gone, listed)
    {
      hide S.Sync, W.Ack;
      gone, listed := [], [];
      if !on {
        return;
      }
      var ok := manager.Ack(c.reminder, c.owner, now);
      if ok {
        gone, listed := SyncEntities();
      }
    }

    method HandleDelete(id: ReminderId) returns (ghost gone: seq<ReminderId>, ghost listed: seq<ReminderId>)
      modifies this, manager.backend, runtime, runtime.mqtt, runtime.registry
      ensures var (w', ok) := W.Delete(old(manager.backend.State()), id);
              var after := old(Value()).(world := w');
              if ok then
                && R.IsListing(gone, after.switches.Keys) && R.IsListing(listed, w'.rows.Keys)
                && (forall x :: x in listed ==> x in w'.rows)
                && Value() == S.Sync(Cfg(), after, gone, listed)
              else Value() == after
    {
      hide S.Sync, W.Delete;
      gone, listed := [], [];
      var ok := manager.Delete(id);
      if ok {
        gone, listed := SyncEntities();
      }
    }

    /** A failing tick is logged, and the switches are synced all the same; a panic ends the process. */
    method Tick(now: Time)
      returns (ghost order: seq<ReminderId>, ghost gone: seq<ReminderId>, ghost listed: seq<ReminderId>)
      modifies this, manager.backend, runtime, runtime.mqtt, runtime.registry
      ensures !old(manager.backend.State()).NextFails() ==> W.IsListing(order, old(manager.backend.rows), now)
      ensures forall id :: id in order ==> id in old(manager.backend.rows)
      ensures var (w', end) := W.Tick(old(manager.backend.State()), order, now);
              var after := old(Value()).(world := w');
              if end == W.Panicked then Value() == after
              else
                && R.IsListing(gone, after.switches.Keys) && R.IsListing(listed, w'.rows.Keys)
                && (forall x :: x in listed ==> x in w'.rows)
                && Value() == S.Sync(Cfg(), after, gone, listed)
    {
      hide S.Sync, W.Tick;
      gone, listed := [], [];
      var end;
      end, order := manager.Tick(now);
      if end != W.Panicked {
        gone, listed := SyncEntities();
      }
    }

    /** Start, after the subscriptions: failing declarations are logged, a failing listing too. */
    method Start() returns (ghost listed: seq<ReminderId>)
      modifies this, manager.backend, runtime, runtime.mqtt, runtime.registry
      ensures R.IsListing(listed, old(manager.backend.rows).Keys)
      ensures forall id :: id in listed ==> id in old(manager.backend.rows)
      ensures Value() == S.Start(Cfg(), old(Value()), listed)
    {
      hide S.DeclareEntity;
      var ok, rems;
      ok, rems, listed := List();
      if !ok {
        return;
      }
      ghost var start := Value();
      for i := 0 to |rems|
        invariant S.DeclareAll(Cfg(), start, rems) == S.DeclareAll(Cfg(), Value(), rems[i..])
      {
        assert rems[i..][1..] == rems[i + 1..];
        var _ := DeclareEntity(rems[i]);
      }
    }
  }
}
