/** Runs of the reminder handler: events, restarts and failing calls, and the switches. */
module ReminderSyncRuns {
  import opened Options
  import opened Outcomes
  import opened PriceSlots
  import opened Reminders
  import W = ReminderStore
  import opened ReminderTick
  import opened ReminderOutcomes
  import opened Topics
  import R = EntityRuntime
  import opened EntityReconnect
  import Runs = ReminderRuns
  import opened ReminderSync
  import opened ReminderSwitches

  /**
   * An event of the store, a restart of the process or a reconnect to the broker, and the orders in which the maps and
   * the store are listed then.
   */
  datatype Turn =
    | Did(event: Runs.Event, gone: seq<ReminderId>, listed: seq<ReminderId>)
    | Restarted(listed: seq<ReminderId>)
    | Reconnected(order: seq<string>)

  ghost predicate CanTurn(h: HandlerState, t: Turn, ids: set<ReminderId>) {
    match t
    case Did(event, gone, listed) =>
      && Runs.CanHappen(h.world, event) && (event.Create? ==> event.cmd.id in ids)
      && R.IsListing(gone, h.switches.Keys) && R.IsListing(listed, Runs.Step(h.world, event).rows.Keys)
      && forall id :: id in listed ==> id in Runs.Step(h.world, event).rows
    case Restarted(listed) =>
      R.IsListing(listed, h.world.rows.Keys) && forall id :: id in listed ==> id in h.world.rows
    case Reconnected(order) =>
      R.IsListing(order, h.rt.entities.Keys) && forall k :: k in order ==> k in h.rt.entities
  }

  /** A new process: the store and the broker are as they were. */
  function Rebooted(cfg: R.Config, h: HandlerState): HandlerState {
    HandlerState(h.world, map[], R.Restarted(cfg, h.rt))
  }

  /** handleCreate, handleAck, handleDelete and tick, once the message has been parsed; Start; or the runtime alone. */
  ghost function Handle(cfg: R.Config, h: HandlerState, t: Turn, ids: set<ReminderId>): HandlerState
    requires CanTurn(h, t, ids)
  {
    match t
    case Restarted(listed) => Start(cfg, Rebooted(cfg, h), listed)
    case Reconnected(order) => h.(rt := R.HandleReconnect(cfg, h.rt, order).0)
    case Did(event, gone, listed) =>
      var after := h.(world := Runs.Step(h.world, event));
      match event
      case Create(cmd, at) =>
        var created := W.Create(h.world, cmd, at).1;
        if created.Ok? then DeclareEntity(cfg, after, created.value).0 else after
      case Ack(id, user, at) => if W.Ack(h.world, id, user, at).1 then Sync(cfg, after, gone, listed) else after
      case Delete(id) => if W.Delete(h.world, id).1 then Sync(cfg, after, gone, listed) else after
      case Tick(order, at) => Sync(cfg, after, gone, listed)
  }

  // ---- What the events do to the stored reminders ----

  /** Nothing is created, and what stays keeps its id and its metadata. */
  ghost predicate Descends(rows: map<ReminderId, Reminder>, rows': map<ReminderId, Reminder>) {
    forall id :: id in rows' ==> id in rows && rows'[id].id == rows[id].id && rows'[id].meta == rows[id].meta
  }

  lemma NextRowKeepsMeta(r: Reminder, now: Time)
    requires r.HasInterval()
    ensures NextRow(r, now).Some? ==> NextRow(r, now).value.id == r.id && NextRow(r, now).value.meta == r.meta
  {
  }

  lemma TickDescends(w: W.World, order: seq<ReminderId>, at: Time)
    requires CanTick(w, order, at)
    ensures Descends(w.rows, W.Tick(w, order, at).0.rows)
    ensures w.script == [] ==> W.Tick(w, order, at).0.script == []
  {
    hide W.Tick, NextRow;
    var k := TickOutcome(w, order, at);
    var rows' := W.Tick(w, order, at).0.rows;
    forall id | id in rows' ensures id in w.rows && rows'[id].id == w.rows[id].id && rows'[id].meta == w.rows[id].meta {
      assert RowAt(rows', id) == Some(rows'[id]);
      if id in order[..k] {
        var i :| 0 <= i < k && order[i] == id;
        assert id in order;
        NextRowKeepsMeta(w.rows[id], at);
      } else {
        assert RowAt(rows', id) == RowAt(w.rows, id);
      }
    }
  }

  /** Under any failures. */
  lemma StepDescends(w: W.World, e: Runs.Event)
    requires Runs.CanHappen(w, e) && !e.Create?
    ensures Descends(w.rows, Runs.Step(w, e).rows) && (w.script == [] ==> Runs.Step(w, e).script == [])
  {
    match e
    case Tick(order, at) =>
      hide W.Tick, Descends;
      TickDescends(w, order, at);
    case Ack(id, user, at) =>
      if id in w.rows {
        AckCompletes(w.rows[id], user, at);
      }
    case _ =>
  }

  /** Without failures a refused event changes nothing. */
  lemma RefusedChangesNothing(w: W.World, e: Runs.Event)
    requires w.script == [] && Runs.CanHappen(w, e)
    ensures e.Ack? && !W.Ack(w, e.id, e.user, e.at).1 ==> Runs.Step(w, e) == w
    ensures e.Create? && W.Create(w, e.cmd, e.at).1.Err? ==> Runs.Step(w, e) == w
    ensures e.Delete? ==> W.Delete(w, e.id).1
  {
    assert w.Called() == w;
    if e.Ack? && e.id in w.rows {
      AckCompletes(w.rows[e.id], e.user, e.at);
    }
  }

  /** The creation reaches the store, whether or not its reply comes back. */
  predicate Stores(w: W.World, cmd: CreateCommand, at: Time) {
    New(cmd, at).Ok? && w.TakesEffect()
  }

  lemma CreateStores(w: W.World, cmd: CreateCommand, at: Time)
    ensures var (w', created) := W.Create(w, cmd, at);
            && (w.script == [] ==> w'.script == [])
            && (!Stores(w, cmd, at) ==> created.Err? && w'.rows == w.rows)
            && (Stores(w, cmd, at) ==>
                  && cmd.id in w'.rows && w'.rows == w.rows[cmd.id := w'.rows[cmd.id]]
                  && w'.rows[cmd.id].id == cmd.id && w'.rows[cmd.id].meta == cmd.meta)
            && (created.Ok? ==>
                  && created.value.id == cmd.id && created.value.meta == cmd.meta
                  && EntityIsOff(created.value) == EntityIsOff(w'.rows[cmd.id]))
            && (w.script == [] ==> (created.Ok? <==> Stores(w, cmd, at)))
  {
  }

  /** Ids and metadata decide who can have a switch. */
  lemma DeclarableByMeta(r: Reminder, r': Reminder)
    requires r.id == r'.id && r.meta == r'.meta
    ensures Declarable(r) <==> Declarable(r')
  {
    hide TrimSpace, SwitchName;
  }

  lemma DescendantsInOrder(h: HandlerState, world: W.World, ids: set<ReminderId>)
    requires Sound(h, ids) && SwitchesShown(h, ids) && GoodRows(h.world.rows, ids) && Descends(h.world.rows, world.rows)
    ensures Sound(h.(world := world), ids) && SwitchesShown(h.(world := world), ids) && GoodRows(world.rows, ids)
    ensures OwnersKnown(h) ==> OwnersKnown(h.(world := world))
  {
    hide EntityKey, R.Inv, KeysDiffer, OwnKeys;
    InWorld(h, world, ids);
  }

  // ---- Whatever fails ----

  /** What every turn keeps under any outcomes of any calls. */
  ghost predicate InHand(h: HandlerState, ids: set<ReminderId>) {
    Sound(h, ids) && SwitchesShown(h, ids) && GoodRows(h.world.rows, ids)
  }

  lemma CreatedInHand(cfg: R.Config, h: HandlerState, cmd: CreateCommand, at: Time, ids: set<ReminderId>)
    requires InHand(h, ids) && cmd.id in ids
    ensures var (w', created) := W.Create(h.world, cmd, at);
            && InHand(h.(world := w'), ids)
            && (created.Ok? ==> InHand(DeclareEntity(cfg, h.(world := w'), created.value).0, ids))
  {
    hide W.Create, EntityKey, DeclareEntity, Sound, Shown, Calm, Declarable, SwitchesShown, EntityIsOff;
    CreateStores(h.world, cmd, at);
    var (w', created) := W.Create(h.world, cmd, at);
    InWorld(h, w', ids);
    if created.Ok? {
      DeclareKeepsShown(cfg, h.(world := w'), created.value, ids);
    }
  }

  /** Declaring reminders that have no switch yet is what the second loop of a sync does. */
  lemma {:induction false} DeclareAllIsSyncRows(cfg: R.Config, h: HandlerState, rems: seq<Reminder>)
    requires forall i :: 0 <= i < |rems| ==> rems[i].id !in h.switches
    requires forall i, j :: 0 <= i < j < |rems| ==> rems[i].id != rems[j].id
    ensures DeclareAll(cfg, h, rems) == SyncRows(cfg, h, rems)
    decreases |rems|
  {
    if rems != [] {
      var r, rest := rems[0], rems[1..];
      OnlyItsOwnSwitch(cfg, h, r);
      forall i | 0 <= i < |rest| ensures rest[i].id !in DeclareEntity(cfg, h, r).0.switches {
        assert rest[i] == rems[i + 1];
      }
      hide DeclareEntity;
      DeclareAllIsSyncRows(cfg, DeclareEntity(cfg, h, r).0, rest);
    }
  }

  lemma OnlyItsOwnSwitch(cfg: R.Config, h: HandlerState, r: Reminder)
    ensures forall id :: id in DeclareEntity(cfg, h, r).0.switches ==> id in h.switches || id == r.id
  {
  }

  lemma StartIsSyncRows(cfg: R.Config, h: HandlerState, listed: seq<ReminderId>, ids: set<ReminderId>)
    requires h.switches == map[] && GoodRows(h.world.rows, ids) && !h.world.NextFails()
    requires R.IsListing(listed, h.world.rows.Keys) && forall id :: id in listed ==> id in h.world.rows
    ensures Start(cfg, h, listed) == SyncRows(cfg, h.(world := h.world.Called()), W.RowsOf(h.world.rows, listed))
  {
    var rems := W.RowsOf(h.world.rows, listed);
    forall i | 0 <= i < |rems| ensures rems[i].id == listed[i] {
      assert listed[i] in listed;
    }
    hide SyncRows, DeclareAll;
    DeclareAllIsSyncRows(cfg, h.(world := h.world.Called()), rems);
  }

  lemma RebootedInHand(cfg: R.Config, h: HandlerState, ids: set<ReminderId>)
    requires InHand(h, ids)
    ensures InHand(Rebooted(cfg, h), ids) && OwnersKnown(Rebooted(cfg, h)) && UpToDate(Rebooted(cfg, h))
  {
    hide EntityKey, IsKey;
  }

  lemma StartKeepsInHand(cfg: R.Config, h: HandlerState, listed: seq<ReminderId>, ids: set<ReminderId>)
    requires InHand(h, ids) && h.switches == map[] && OwnersKnown(h)
    requires R.IsListing(listed, h.world.rows.Keys) && forall id :: id in listed ==> id in h.world.rows
    ensures InHand(Start(cfg, h, listed), ids) && OwnersKnown(Start(cfg, h, listed))
  {
    var h1 := h.(world := h.world.Called());
    InWorld(h, h.world.Called(), ids);
    hide Sound, SwitchesShown, OwnersKnown, Calm, EntityKey, EntityIsOff, Declarable, DeclareAll,
         SyncRows, W.RowsOf, R.IsListing;
    if !h.world.NextFails() {
      StartIsSyncRows(cfg, h, listed, ids);
      ListedRows(h.world.rows, listed, ids);
      SyncRowsKeeps(cfg, h1, W.RowsOf(h.world.rows, listed), ids);
    }
  }

  lemma ReconnectedInHand(cfg: R.Config, h: HandlerState, order: seq<string>, ids: set<ReminderId>)
    requires InHand(h, ids) && CanTurn(h, Reconnected(order), ids)
    ensures var h' := h.(rt := R.HandleReconnect(cfg, h.rt, order).0);
            InHand(h', ids) && (OwnersKnown(h) ==> OwnersKnown(h'))
  {
    hide EntityKey, IsKey, R.HandleReconnect, R.Mirrors, R.IsListing, Refreshed, OnlyTouches;
    ReconnectHeals(cfg, h.rt, order);
  }

  /** Every turn, with any failing calls, leaves every switch of the map declared, remembered right and operable. */
  lemma HandleKeepsInHand(cfg: R.Config, h: HandlerState, t: Turn, ids: set<ReminderId>)
    requires InHand(h, ids) && CanTurn(h, t, ids)
    ensures InHand(Handle(cfg, h, t, ids), ids)
  {
    hide Sound, SwitchesShown, OwnersKnown, DeclareEntity, Sync, Start, W.Create, W.Ack, W.Tick, W.Delete, Descends,
         Runs.CanHappen, R.IsListing, UpToDate, R.HandleReconnect;
    if t.Restarted? {
      RebootedInHand(cfg, h, ids);
      StartKeepsInHand(cfg, Rebooted(cfg, h), t.listed, ids);
    } else if t.Reconnected? {
      ReconnectedInHand(cfg, h, t.order, ids);
    } else if t.event.Create? {
      CreatedInHand(cfg, h, t.event.cmd, t.event.at, ids);
    } else {
      var world := Runs.Step(h.world, t.event);
      StepDescends(h.world, t.event);
      DescendantsInOrder(h, world, ids);
      SyncKeepsShown(cfg, h.(world := world), t.gone, t.listed, ids);
    }
  }

  /**
   * A reminder with a switch is stored anew for another owner, but its switch is not declared again: because the reply
   * of the store is lost, because the new reminder cannot have a switch, or because the declaration fails.
   */
  predicate LosesOwner(h: HandlerState, t: Turn) {
    t.Did? && t.event.Create?
    && var cmd, created := t.event.cmd, W.Create(h.world, t.event.cmd, t.event.at).1;
       && Stores(h.world, cmd, t.event.at) && cmd.id in h.switches
       && !(created.Ok? && Declarable(created.value) && h.rt.broker.NextOutcome() == Acked)
       && EntityKey(cmd.id) in h.rt.handlers && h.rt.handlers[EntityKey(cmd.id)].owner != cmd.meta.owner
  }

  /** The callbacks keep acknowledging in the name of the owners, except in exactly that case. */
  lemma OwnersStayKnownIff(cfg: R.Config, h: HandlerState, t: Turn, ids: set<ReminderId>)
    requires InHand(h, ids) && OwnersKnown(h) && CanTurn(h, t, ids)
    ensures OwnersKnown(Handle(cfg, h, t, ids)) <==> !LosesOwner(h, t)
  {
    if t.Restarted? {
      hide Sound, SwitchesShown, OwnersKnown, Start, R.IsListing, UpToDate;
      RebootedInHand(cfg, h, ids);
      StartKeepsInHand(cfg, Rebooted(cfg, h), t.listed, ids);
    } else if t.Reconnected? {
      hide Sound, SwitchesShown, OwnersKnown, R.HandleReconnect, R.IsListing;
      ReconnectedInHand(cfg, h, t.order, ids);
    } else if t.event.Create? {
      hide *;
      CreateOwner(cfg, h, t, ids);
    } else {
      hide Sound, SwitchesShown, OwnersKnown, DeclareEntity, Sync, W.Create, W.Ack, W.Tick, W.Delete, Descends,
           Runs.CanHappen, R.IsListing;
      var world := Runs.Step(h.world, t.event);
      StepDescends(h.world, t.event);
      DescendantsInOrder(h, world, ids);
      SyncKeepsShown(cfg, h.(world := world), t.gone, t.listed, ids);
    }
  }

  lemma CreateOwner(cfg: R.Config, h: HandlerState, t: Turn, ids: set<ReminderId>)
    requires InHand(h, ids) && OwnersKnown(h) && CanTurn(h, t, ids) && t.Did? && t.event.Create?
    ensures OwnersKnown(Handle(cfg, h, t, ids)) <==> !LosesOwner(h, t)
  {
    hide W.Create, EntityKey, DeclareEntity, Sound, Calm, Declarable, EntityIsOff, Runs.CanHappen,
         R.IsListing;
    var cmd := t.event.cmd;
    var (w', created) := W.Create(h.world, cmd, t.event.at);
    CreateStores(h.world, cmd, t.event.at);
    InWorld(h, w', ids);
    if created.Ok? {
      var h1 := h.(world := w');
      DeclaredOwner(cfg, h1, created.value, ids);
      var h' := DeclareEntity(cfg, h1, created.value).0;
      forall id | id in h'.switches && id in w'.rows && id != cmd.id
        ensures KnowsOwner(h', id, w'.rows[id].meta.owner)
      {
        assert id in h.switches && id in h.world.rows && KnowsOwner(h, id, h.world.rows[id].meta.owner);
        assert KnowsOwner(h1, id, w'.rows[id].meta.owner);
      }
    }
  }

  lemma DeclaredOwner(cfg: R.Config, h: HandlerState, r: Reminder, ids: set<ReminderId>)
    requires Sound(h, ids) && SwitchesShown(h, ids) && r.id in ids
    ensures var (h', ok) := DeclareEntity(cfg, h, r);
            && h'.world == h.world && (ok <==> Declarable(r) && h.rt.broker.NextOutcome() == Acked)
            && (forall id :: id in h'.switches && id != r.id ==> id in h.switches && id in ids)
            && (r.id in h'.switches <==> ok || r.id in h.switches)
            && (ok ==> KnowsOwner(h', r.id, r.meta.owner))
            && (!ok && r.id in h.switches ==> forall owner :: KnowsOwner(h', r.id, owner) <==> KnowsOwner(h, r.id, owner))
            && (forall id, owner :: id in ids && id != r.id && KnowsOwner(h, id, owner) ==> KnowsOwner(h', id, owner))
  {
    hide EntityKey, Declarable, DeclareEntity, EntityIsOff, Calm, R.Inv;
    DeclareKeepsShown(cfg, h, r, ids);
    DeclareEffect(cfg, h, r);
  }

  // ---- Without failing calls ----

  /** Nothing undeclarable is created over a reminder with a switch. */
  predicate CleanTurn(h: HandlerState, t: Turn) {
    t.Did? && t.event.Create? ==>
      var created := W.Create(h.world, t.event.cmd, t.event.at).1;
      created.Ok? && created.value.id in h.switches ==> Declarable(created.value)
  }

  lemma GoodWithNewRow(rows: map<ReminderId, Reminder>, row: Reminder, ids: set<ReminderId>)
    requires GoodRows(rows, ids) && row.id in ids
    ensures GoodRows(rows[row.id := row], ids)
    ensures DeclarableIds(rows[row.id := row]) ==
            if Declarable(row) then DeclarableIds(rows) + {row.id} else DeclarableIds(rows) - {row.id}
  {
    hide Declarable;
  }

  /** The switches of the other reminders do not notice a new row. */
  lemma OthersAfterStore(h: HandlerState, world: W.World, row: Reminder)
    requires world.rows == h.world.rows[row.id := row] && UpToDate(h) && OwnersKnown(h)
    ensures forall id :: id in h.switches && id != row.id ==>
              && id in world.rows && h.switches[id].isOff == EntityIsOff(world.rows[id])
              && KnowsOwner(h, id, world.rows[id].meta.owner)
  {
    hide EntityIsOff, KnowsOwner;
  }

  lemma KnownInWorld(h: HandlerState, world: W.World)
    ensures forall id, owner :: KnowsOwner(h.(world := world), id, owner) <==> KnowsOwner(h, id, owner)
  {
    hide EntityKey;
  }

  /** The store has taken a row, and then the switch is declared. */
  lemma StoredThenDeclared(cfg: R.Config, h: HandlerState, world: W.World, row: Reminder, r: Reminder, ids: set<ReminderId>)
    requires Synced(cfg, h, ids) && world.script == [] && world.rows == h.world.rows[row.id := row]
    requires row.id == r.id && row.meta == r.meta && EntityIsOff(row) == EntityIsOff(r) && r.id in ids
    requires Declarable(r)
    ensures Synced(cfg, DeclareEntity(cfg, h.(world := world), r).0, ids)
  {
    hide EntityKey, EntityIsOff, DeclareEntity, DeclarableIds, Calm, GoodRows, SwitchesShown, OnlySwitches, Raised,
         Declarable, KnowsOwner, UpToDate, OwnersKnown, R.Inv, KeysDiffer;
    var h1 := h.(world := world);
    DeclarableByMeta(row, r);
    GoodWithNewRow(h.world.rows, row, ids);
    InWorld(h, world, ids);
    CalmScript(cfg, h.rt);
    DeclareKeepsShown(cfg, h1, r, ids);
    DeclareEffect(cfg, h1, r);
    DeclareKeepsCalm(cfg, h1, r);
    DeclaredAndKnown(cfg, h, world, row, r, ids);
    var h2 := DeclareEntity(cfg, h1, r).0;
    DeclareRaises(cfg, h1, r, ids);
    SameTraces(cfg, h, world, ids);
    RaisedKeepsOnlySwitches(cfg, h1, h2, ids);
    assert h2.switches.Keys == h.switches.Keys + {r.id};
  }

  lemma SameTraces(cfg: R.Config, h: HandlerState, world: W.World, ids: set<ReminderId>)
    ensures OnlySwitches(cfg, h.(world := world), ids) <==> OnlySwitches(cfg, h, ids)
  {
  }

  lemma CalmScript(cfg: R.Config, rt: R.State)
    requires Calm(cfg, rt)
    ensures rt.broker.script == [] && rt.broker.NextOutcome() == Acked
  {
  }

  lemma DeclaredAndKnown(cfg: R.Config, h: HandlerState, world: W.World, row: Reminder, r: Reminder, ids: set<ReminderId>)
    requires Sound(h, ids) && SwitchesShown(h, ids) && UpToDate(h) && OwnersKnown(h)
    requires world.rows == h.world.rows[row.id := row] && r.id in ids && Declarable(r)
    requires h.rt.broker.NextOutcome() == Acked
    requires row.id == r.id && row.meta == r.meta && EntityIsOff(row) == EntityIsOff(r)
    ensures var h2 := DeclareEntity(cfg, h.(world := world), r).0; UpToDate(h2) && OwnersKnown(h2)
  {
    hide EntityKey, EntityIsOff, DeclareEntity, Calm, Shown, Declarable, KnowsOwner, R.Inv, KeysDiffer;
    InWorld(h, world, ids);
    OthersAfterStore(h, world, row);
    KnownInWorld(h, world);
    DeclaredOwner(cfg, h.(world := world), r, ids);
    DeclareEffect(cfg, h.(world := world), r);
  }

  /** The store has taken a row that cannot have a switch. */
  lemma StoredWithoutSwitch(cfg: R.Config, h: HandlerState, world: W.World, row: Reminder, ids: set<ReminderId>)
    requires Synced(cfg, h, ids) && world.script == [] && world.rows == h.world.rows[row.id := row]
    requires row.id in ids && !Declarable(row)
    ensures Synced(cfg, h.(world := world), ids) <==> row.id !in h.switches
  {
    hide EntityIsOff, DeclarableIds, Calm, Sound, GoodRows, SwitchesShown, OnlySwitches, Declarable, KnowsOwner,
         UpToDate, OwnersKnown;
    var h1 := h.(world := world);
    GoodWithNewRow(h.world.rows, row, ids);
    InWorld(h, world, ids);
    SameTraces(cfg, h, world, ids);
    assert row.id in h.switches <==> row.id in h.switches.Keys;
    if row.id !in h.switches {
      UnnoticedRow(h, world, row);
      assert h1.switches.Keys == DeclarableIds(world.rows);
    } else {
      assert row.id in h1.switches.Keys && row.id !in DeclarableIds(world.rows);
    }
  }

  lemma UnnoticedRow(h: HandlerState, world: W.World, row: Reminder)
    requires world.rows == h.world.rows[row.id := row] && UpToDate(h) && OwnersKnown(h) && row.id !in h.switches
    ensures UpToDate(h.(world := world)) && OwnersKnown(h.(world := world))
  {
    hide EntityIsOff, KnowsOwner;
    OthersAfterStore(h, world, row);
    KnownInWorld(h, world);
  }

  lemma CreateKeepsSyncedIff(cfg: R.Config, h: HandlerState, t: Turn, ids: set<ReminderId>)
    requires Synced(cfg, h, ids) && CanTurn(h, t, ids) && t.Did? && t.event.Create?
    ensures Synced(cfg, Handle(cfg, h, t, ids), ids) <==> CleanTurn(h, t)
  {
    SyncedWorld(cfg, h, ids);
    hide Synced, DeclareEntity, W.Create, Runs.CanHappen, R.IsListing, Declarable, EntityIsOff;
    var cmd := t.event.cmd;
    CreateStores(h.world, cmd, t.event.at);
    RefusedChangesNothing(h.world, t.event);
    var (w', created) := W.Create(h.world, cmd, t.event.at);
    if created.Ok? {
      DeclarableByMeta(w'.rows[cmd.id], created.value);
      if Declarable(created.value) {
        StoredThenDeclared(cfg, h, w', w'.rows[cmd.id], created.value, ids);
      } else {
        UndeclarableIsLeft(cfg, h.(world := w'), created.value);
        StoredWithoutSwitch(cfg, h, w', w'.rows[cmd.id], ids);
      }
    }
  }

  lemma SyncedWorld(cfg: R.Config, h: HandlerState, ids: set<ReminderId>)
    requires Synced(cfg, h, ids)
    ensures h.world.script == []
  {
  }

  lemma SyncKeepsSynced(cfg: R.Config, h: HandlerState, world: W.World, gone: seq<ReminderId>, listed: seq<ReminderId>,
                        ids: set<ReminderId>)
    requires Synced(cfg, h, ids) && world.script == [] && Descends(h.world.rows, world.rows)
    requires R.IsListing(gone, h.switches.Keys) && R.IsListing(listed, world.rows.Keys)
    requires forall id :: id in listed ==> id in world.rows
    ensures Synced(cfg, Sync(cfg, h.(world := world), gone, listed), ids)
    ensures Sync(cfg, h.(world := world), gone, listed).world == world
  {
    DescendantsInOrder(h, world, ids);
    DescendantsDeclarable(h.world.rows, world.rows);
    SameTraces(cfg, h, world, ids);
    hide Sound, Calm, SwitchesShown, OwnersKnown, OnlySwitches, DeclarableIds, Sync, R.IsListing, GoodRows, Descends,
         EntityIsOff;
    SyncEstablishesIff(cfg, h.(world := world), gone, listed, ids);
  }

  lemma DescendantsDeclarable(rows: map<ReminderId, Reminder>, rows': map<ReminderId, Reminder>)
    requires Descends(rows, rows')
    ensures DeclarableIds(rows') == DeclarableIds(rows) * rows'.Keys
  {
    forall id | id in rows' ensures Declarable(rows'[id]) <==> Declarable(rows[id]) {
      DeclarableByMeta(rows[id], rows'[id]);
    }
    hide Declarable;
  }

  // ---- A restart ----

  /**
   * A process that starts with no switches shows every stored reminder that can have one. All is in step exactly if of
   * the other ids none was registered or had a topic that holds something: Start does not remove the switch of a
   * reminder that left the store without a sync.
   */
  lemma StartIsSyncedIff(cfg: R.Config, h: HandlerState, listed: seq<ReminderId>, ids: set<ReminderId>)
    requires InHand(h, ids) && Calm(cfg, h.rt) && h.world.script == [] && h.switches == map[]
    requires R.IsListing(listed, h.world.rows.Keys) && forall id :: id in listed ==> id in h.world.rows
    ensures var h' := Start(cfg, h, listed);
            && h'.world == h.world && SwitchesShown(h', ids) && UpToDate(h')
            && h'.switches.Keys == DeclarableIds(h.world.rows)
            && (Synced(cfg, h', ids) <==> OnlyTracesOf(cfg, h.rt, ids, DeclarableIds(h.world.rows)))
  {
    hide *;
    StartShows(cfg, h, listed, ids);
    var h' := Start(cfg, h, listed);
    RaisedTraces(cfg, h, h', ids, h'.switches.Keys);
    SyncedMeans(cfg, h', ids);
  }

  lemma SyncedMeans(cfg: R.Config, h: HandlerState, ids: set<ReminderId>)
    requires Sound(h, ids) && Calm(cfg, h.rt) && h.world.script == [] && GoodRows(h.world.rows, ids)
    requires SwitchesShown(h, ids) && OwnersKnown(h) && h.switches.Keys == DeclarableIds(h.world.rows) && UpToDate(h)
    ensures Synced(cfg, h, ids) <==> OnlyTracesOf(cfg, h.rt, ids, h.switches.Keys)
  {
  }

  lemma StartShows(cfg: R.Config, h: HandlerState, listed: seq<ReminderId>, ids: set<ReminderId>)
    requires InHand(h, ids) && Calm(cfg, h.rt) && h.world.script == [] && h.switches == map[]
    requires R.IsListing(listed, h.world.rows.Keys) && forall id :: id in listed ==> id in h.world.rows
    ensures var h' := Start(cfg, h, listed);
            && Calm(cfg, h'.rt) && h'.world == h.world && OwnersKnown(h') && UpToDate(h')
            && Sound(h', ids) && SwitchesShown(h', ids) && GoodRows(h'.world.rows, ids)
            && h'.switches.Keys == DeclarableIds(h.world.rows) && Raised(cfg, h, h', ids)
  {
    assert h.world.Called() == h.world && OwnersKnown(h);
    CalmScript(cfg, h.rt);
    hide Sound, SwitchesShown, OwnersKnown, Calm, EntityKey, EntityIsOff, Declarable, Start, SyncRows, W.RowsOf,
         R.IsListing, Raised, KnowsOwner;
    StartIsSyncRows(cfg, h, listed, ids);
    SecondLoop(cfg, h, listed, ids);
  }

  /** With or without a registry file. */
  lemma RestartKeepsSynced(cfg: R.Config, h: HandlerState, listed: seq<ReminderId>, ids: set<ReminderId>)
    requires Synced(cfg, h, ids)
    requires R.IsListing(listed, h.world.rows.Keys) && forall id :: id in listed ==> id in h.world.rows
    ensures Synced(cfg, Start(cfg, Rebooted(cfg, h), listed), ids)
    ensures Start(cfg, Rebooted(cfg, h), listed).world == h.world
  {
    RebootedInHand(cfg, h, ids);
    RebootedIsCalm(cfg, h, ids);
    hide Sound, Calm, GoodRows, SwitchesShown, OwnersKnown, UpToDate, EntityKey, Declarable, Start, R.IsListing,
         OnlyTracesOf;
    StartIsSyncedIff(cfg, Rebooted(cfg, h), listed, ids);
  }

  lemma RebootedIsCalm(cfg: R.Config, h: HandlerState, ids: set<ReminderId>)
    requires Calm(cfg, h.rt) && OnlySwitches(cfg, h, ids)
    ensures Calm(cfg, Rebooted(cfg, h).rt) && OnlyTracesOf(cfg, Rebooted(cfg, h).rt, ids, h.switches.Keys)
  {
    hide EntityKey, R.Discovery, R.StateOf, R.Held;
  }

  // ---- A reconnect ----

  lemma ReconnectKeepsSynced(cfg: R.Config, h: HandlerState, order: seq<string>, ids: set<ReminderId>)
    requires Synced(cfg, h, ids) && CanTurn(h, Reconnected(order), ids)
    ensures Synced(cfg, h.(rt := R.HandleReconnect(cfg, h.rt, order).0), ids)
  {
    hide KeysDiffer, OwnKeys, SwitchesShown, OwnersKnown, GoodRows, R.HandleReconnect, R.IsListing, R.Mirrors, R.Inv,
         DeclarableIds, EntityIsOff, OnlyTracesOf;
    ReconnectedInHand(cfg, h, order, ids);
    ReconnectedIsCalm(cfg, h.rt, order, ids, h.switches.Keys);
  }

  lemma ReconnectedIsCalm(cfg: R.Config, rt: R.State, order: seq<string>, ids: set<ReminderId>, xs: set<ReminderId>)
    requires R.Inv(rt) && OwnKeys(rt, ids) && Calm(cfg, rt) && OnlyTracesOf(cfg, rt, ids, xs)
    requires R.IsListing(order, rt.entities.Keys) && forall k :: k in order ==> k in rt.entities
    ensures var rt' := R.HandleReconnect(cfg, rt, order).0; Calm(cfg, rt') && OnlyTracesOf(cfg, rt', ids, xs)
  {
    hide EntityKey, R.HandleReconnect, R.IsListing, R.Mirrors, R.Discovery, R.StateOf, R.Held, Refreshed, IsKey;
    ReconnectHeals(cfg, rt, order);
  }

  // ---- Every turn ----

  /**
   * Without failing calls each handler, a restart and a reconnect leave the switches in step with the store, and the
   * store as the manager left it; except, exactly, a creation that takes a reminder with a switch what it needs for one.
   */
  lemma HandleKeepsSyncedIff(cfg: R.Config, h: HandlerState, t: Turn, ids: set<ReminderId>)
    requires Synced(cfg, h, ids) && CanTurn(h, t, ids)
    ensures Synced(cfg, Handle(cfg, h, t, ids), ids) <==> CleanTurn(h, t)
    ensures Handle(cfg, h, t, ids).world == if t.Did? then Runs.Step(h.world, t.event) else h.world
  {
    SyncedWorld(cfg, h, ids);
    hide Synced, DeclareEntity, Sync, Start, W.Create, W.Ack, W.Tick, W.Delete, Descends, Runs.CanHappen, R.IsListing,
         CleanTurn, R.HandleReconnect;
    if t.Restarted? {
      RestartKeepsSynced(cfg, h, t.listed, ids);
      OthersAreClean(h, t);
    } else if t.Reconnected? {
      ReconnectKeepsSynced(cfg, h, t.order, ids);
      OthersAreClean(h, t);
    } else if t.event.Create? {
      CreateKeepsSyncedIff(cfg, h, t, ids);
      if W.Create(h.world, t.event.cmd, t.event.at).1.Ok? {
        var created := W.Create(h.world, t.event.cmd, t.event.at).1.value;
        DeclareKeepsWorld(cfg, h.(world := Runs.Step(h.world, t.event)), created);
      }
    } else {
      OthersAreClean(h, t);
      RefusedChangesNothing(h.world, t.event);
      StepDescends(h.world, t.event);
      SyncKeepsSynced(cfg, h, Runs.Step(h.world, t.event), t.gone, t.listed, ids);
    }
  }

  lemma OthersAreClean(h: HandlerState, t: Turn)
    requires t.Did? ==> !t.event.Create?
    ensures CleanTurn(h, t)
  {
  }

  lemma DeclareKeepsWorld(cfg: R.Config, h: HandlerState, r: Reminder)
    ensures DeclareEntity(cfg, h, r).0.world == h.world
  {
  }

  // ---- Runs ----

  ghost predicate IsHandling(cfg: R.Config, h: HandlerState, ts: seq<Turn>, ids: set<ReminderId>)
    decreases |ts|
  {
    ts == [] || (CanTurn(h, ts[0], ids) && IsHandling(cfg, Handle(cfg, h, ts[0], ids), ts[1..], ids))
  }

  ghost function Handled(cfg: R.Config, h: HandlerState, ts: seq<Turn>, ids: set<ReminderId>): HandlerState
    requires IsHandling(cfg, h, ts, ids)
    decreases |ts|
  {
    if ts == [] then h else Handled(cfg, Handle(cfg, h, ts[0], ids), ts[1..], ids)
  }

  ghost predicate CleanTurns(cfg: R.Config, h: HandlerState, ts: seq<Turn>, ids: set<ReminderId>)
    requires IsHandling(cfg, h, ts, ids)
    decreases |ts|
  {
    ts != [] ==> CleanTurn(h, ts[0]) && CleanTurns(cfg, Handle(cfg, h, ts[0], ids), ts[1..], ids)
  }

  /** In every run, whatever calls fail, and with restarts and reconnects, the switches stay in hand. */
  lemma {:induction false} RunKeepsInHand(cfg: R.Config, h: HandlerState, ts: seq<Turn>, ids: set<ReminderId>)
    requires InHand(h, ids) && IsHandling(cfg, h, ts, ids)
    ensures InHand(Handled(cfg, h, ts, ids), ids)
    decreases |ts|
  {
    hide InHand, Handle, CanTurn;
    if ts != [] {
      HandleKeepsInHand(cfg, h, ts[0], ids);
      RunKeepsInHand(cfg, Handle(cfg, h, ts[0], ids), ts[1..], ids);
    }
  }

  lemma {:induction false} RunKeepsSynced(cfg: R.Config, h: HandlerState, ts: seq<Turn>, ids: set<ReminderId>)
    requires Synced(cfg, h, ids) && IsHandling(cfg, h, ts, ids) && CleanTurns(cfg, h, ts, ids)
    ensures Synced(cfg, Handled(cfg, h, ts, ids), ids)
    decreases |ts|
  {
    hide Synced, Handle, CanTurn, CleanTurn;
    if ts != [] {
      HandleKeepsSyncedIff(cfg, h, ts[0], ids);
      RunKeepsSynced(cfg, Handle(cfg, h, ts[0], ids), ts[1..], ids);
    }
  }

  /**
   * A process starts, its store and its broker holding whatever earlier ones have left, as long as of these ids only
   * stored reminders that can have a switch have left traces. Then after every failure-free run, restarts and
   * reconnects included, over ids with distinct keys, and as long as no reminder with a switch is replaced by one that
   * cannot have any: the switch map has exactly the stored ids that can, and the state topic of an id holds OFF if it
   * is one of them, requires an acknowledgement and has fired, ON if it is one of them otherwise, and nothing if it is
   * not.
   */
  lemma SwitchesMirrorTheStore(cfg: R.Config, start: HandlerState, listed: seq<ReminderId>, ts: seq<Turn>,
                               ids: set<ReminderId>, id: ReminderId)
    requires InHand(start, ids) && Calm(cfg, start.rt) && start.world.script == [] && start.switches == map[]
    requires R.IsListing(listed, start.world.rows.Keys) && forall id :: id in listed ==> id in start.world.rows
    requires OnlyTracesOf(cfg, start.rt, ids, DeclarableIds(start.world.rows)) && id in ids
    requires IsHandling(cfg, Start(cfg, start, listed), ts, ids) && CleanTurns(cfg, Start(cfg, start, listed), ts, ids)
    ensures var h := Handled(cfg, Start(cfg, start, listed), ts, ids);
            && (id in h.switches <==> id in h.world.rows && CanHaveSwitch(h.world.rows[id]))
            && R.Held(h.rt.broker.retained, cfg.appPrefix + "/entities/" + EntityKey(id) + "/state") ==
               if id !in h.world.rows || !CanHaveSwitch(h.world.rows[id]) then None
               else if h.world.rows[id].policy.requiresAck && h.world.rows[id].state.fireCount > 0 then Some("OFF")
               else Some("ON")
  {
    hide Handled, IsHandling, CleanTurns, EntityKey, EntityIsOff, Calm, Sound, SwitchesShown, OnlySwitches, Start,
         OnlyTracesOf, GoodRows, OwnersKnown, Declarable, CanHaveSwitch, UpToDate;
    StartIsSyncedIff(cfg, start, listed, ids);
    RunKeepsSynced(cfg, Start(cfg, start, listed), ts, ids);
    var h := Handled(cfg, Start(cfg, start, listed), ts, ids);
    SwitchShows(cfg, h, ids, id);
  }

  /** What the state topic of one id holds when synced. */
  lemma SwitchShows(cfg: R.Config, h: HandlerState, ids: set<ReminderId>, id: ReminderId)
    requires Synced(cfg, h, ids) && id in ids
    ensures id in h.switches <==> id in h.world.rows && CanHaveSwitch(h.world.rows[id])
    ensures R.Held(h.rt.broker.retained, cfg.appPrefix + "/entities/" + EntityKey(id) + "/state") ==
            if id !in h.world.rows || !CanHaveSwitch(h.world.rows[id]) then None
            else if h.world.rows[id].policy.requiresAck && h.world.rows[id].state.fireCount > 0 then Some("OFF")
            else Some("ON")
  {
    hide Synced, EntityKey, CanHaveSwitch, R.StateOf;
    RetainedShowsPending(cfg, h, ids, id);
    StateTopicOf(cfg, EntityKey(id));
    if id !in h.switches {
      GoneHoldsNothing(cfg, h.rt, id);
    }
  }

  lemma GoneHoldsNothing(cfg: R.Config, rt: R.State, id: ReminderId)
    requires R.Gone(cfg, rt, EntityKey(id))
    ensures Held(cfg, rt, id) == None
  {
  }

  // ---- A reminder replaced by one that cannot have a switch ----

  /**
   * What LosesOwner and CleanTurn single out: a reminder is created, and then created again for another owner and with a
   * message that gives no name. No call fails; the old switch stays, not in step with the store, and acknowledges in
   * the name of the old owner.
   */
  lemma ReplacementKeepsOldSwitch(cfg: R.Config, cmd: CreateCommand, at: Time, cmd': CreateCommand, at': Time)
    returns (ts: seq<Turn>)
    requires cmd.id == cmd'.id && cmd.HasInterval() && cmd'.HasInterval() && New(cmd, at).Ok? && New(cmd', at').Ok?
    requires Declarable(New(cmd, at).value) && !Declarable(New(cmd', at').value) && cmd.meta.owner != cmd'.meta.owner
    ensures var none, ids := HandlerState(W.World(map[], [], [], 0), map[], NoRuntime()), {cmd.id};
            && IsHandling(cfg, none, ts, ids) && |ts| == 2
            && Synced(cfg, none, ids) && CleanTurn(none, ts[0]) && !LosesOwner(none, ts[0])
            && var h := Handle(cfg, none, ts[0], ids);
               && Synced(cfg, h, ids) && !CleanTurn(h, ts[1]) && LosesOwner(h, ts[1])
               && var h' := Handled(cfg, none, ts, ids);
                  !Synced(cfg, h', ids) && !OwnersKnown(h') && cmd.id in h'.switches
  {
    var none, ids := HandlerState(W.World(map[], [], [], 0), map[], NoRuntime()), {cmd.id};
    var first, second := Runs.Create(cmd, at), Runs.Create(cmd', at');
    ts := [Did(first, [], [cmd.id]), Did(second, [cmd.id], [cmd.id])];
    hide *;
    NoneIsSynced(cfg, ids);
    FirstCreation(cfg, none, ts[0], cmd, at);
    ReplacedBy(cfg, Handle(cfg, none, ts[0], ids), ts[1], cmd', at', cmd.meta.owner);
    TwoTurns(cfg, none, ts, ids);
  }

  lemma FirstCreation(cfg: R.Config, none: HandlerState, t: Turn, cmd: CreateCommand, at: Time)
    requires none == HandlerState(W.World(map[], [], [], 0), map[], NoRuntime()) && Synced(cfg, none, {cmd.id})
    requires t == Did(Runs.Create(cmd, at), [], [cmd.id])
    requires cmd.HasInterval() && New(cmd, at).Ok? && Declarable(New(cmd, at).value)
    ensures CanTurn(none, t, {cmd.id}) && CleanTurn(none, t) && !LosesOwner(none, t)
    ensures var h := Handle(cfg, none, t, {cmd.id});
            && Synced(cfg, h, {cmd.id}) && h.world.rows.Keys == {cmd.id} == h.switches.Keys
            && KnowsOwner(h, cmd.id, cmd.meta.owner)
  {
    hide Synced, EntityKey, Declarable, DeclareEntity, EntityIsOff, W.Create, New;
    CreateStores(none.world, cmd, at);
    assert CanTurn(none, t, {cmd.id});
    hide Handle;
    HandleKeepsSyncedIff(cfg, none, t, {cmd.id});
    SyncedOwner(cfg, Handle(cfg, none, t, {cmd.id}), cmd.id);
    DeclarableByMeta(Runs.Step(none.world, t.event).rows[cmd.id], New(cmd, at).value) by {
      NewKeepsMeta(cmd, at);
    }
  }

  lemma NewKeepsMeta(cmd: CreateCommand, at: Time)
    ensures New(cmd, at).Ok? ==> New(cmd, at).value.id == cmd.id && New(cmd, at).value.meta == cmd.meta
  {
  }

  lemma SyncedOwner(cfg: R.Config, h: HandlerState, id: ReminderId)
    requires Synced(cfg, h, {id}) && h.world.rows.Keys == {id}
    ensures h.switches.Keys == if Declarable(h.world.rows[id]) then {id} else {}
    ensures Declarable(h.world.rows[id]) ==> KnowsOwner(h, id, h.world.rows[id].meta.owner)
  {
    hide Declarable, EntityKey, Calm, Sound, OnlySwitches, SwitchesShown, KnowsOwner;
    assert id in h.world.rows.Keys;
    assert id in h.switches <==> id in h.switches.Keys;
  }

  lemma ReplacedBy(cfg: R.Config, h: HandlerState, t: Turn, cmd: CreateCommand, at: Time, owner: string)
    requires Synced(cfg, h, {cmd.id}) && h.world.rows.Keys == {cmd.id} == h.switches.Keys
    requires KnowsOwner(h, cmd.id, owner) && owner != cmd.meta.owner
    requires t == Did(Runs.Create(cmd, at), [cmd.id], [cmd.id])
    requires cmd.HasInterval() && New(cmd, at).Ok? && !Declarable(New(cmd, at).value)
    ensures CanTurn(h, t, {cmd.id}) && !CleanTurn(h, t) && LosesOwner(h, t)
    ensures var h' := Handle(cfg, h, t, {cmd.id});
            !Synced(cfg, h', {cmd.id}) && !OwnersKnown(h') && cmd.id in h'.switches
  {
    SyncedInHand(cfg, h, {cmd.id});
    assert cmd.id in h.switches.Keys;
    hide Synced, InHand, OwnersKnown, Handle, CanTurn, EntityKey, Declarable, New;
    Replaces(cfg, h, t, cmd, at);
    HandleKeepsSyncedIff(cfg, h, t, {cmd.id});
    OwnersStayKnownIff(cfg, h, t, {cmd.id});
  }

  lemma Replaces(cfg: R.Config, h: HandlerState, t: Turn, cmd: CreateCommand, at: Time)
    requires h.world.script == [] && h.world.rows.Keys == {cmd.id} == h.switches.Keys
    requires t == Did(Runs.Create(cmd, at), [cmd.id], [cmd.id])
    requires cmd.HasInterval() && New(cmd, at).Ok? && !Declarable(New(cmd, at).value)
    ensures CanTurn(h, t, {cmd.id}) && W.Create(h.world, cmd, at).1 == New(cmd, at) && Stores(h.world, cmd, at)
    ensures New(cmd, at).value.id == cmd.id && New(cmd, at).value.meta == cmd.meta
    ensures Handle(cfg, h, t, {cmd.id}).switches == h.switches
  {
    NewKeepsMeta(cmd, at);
    assert W.Create(h.world, cmd, at).1 == New(cmd, at) by {
      hide New;
    }
    CreateStores(h.world, cmd, at);
    hide Declarable, DeclareEntity, EntityIsOff, W.Create, New;
    UndeclarableIsLeft(cfg, h.(world := Runs.Step(h.world, t.event)), New(cmd, at).value);
  }

  lemma SyncedInHand(cfg: R.Config, h: HandlerState, ids: set<ReminderId>)
    requires Synced(cfg, h, ids)
    ensures InHand(h, ids) && OwnersKnown(h) && h.world.script == []
  {
  }

  /** A first process that finds nothing. */
  lemma NoneIsSynced(cfg: R.Config, ids: set<ReminderId>)
    requires KeysDiffer(ids)
    ensures Synced(cfg, HandlerState(W.World(map[], [], [], 0), map[], NoRuntime()), ids)
  {
    hide EntityKey, R.Discovery, R.StateOf;
  }

  lemma TwoTurns(cfg: R.Config, h: HandlerState, ts: seq<Turn>, ids: set<ReminderId>)
    requires |ts| == 2 && CanTurn(h, ts[0], ids) && CanTurn(Handle(cfg, h, ts[0], ids), ts[1], ids)
    ensures IsHandling(cfg, h, ts, ids)
    ensures Handled(cfg, h, ts, ids) == Handle(cfg, Handle(cfg, h, ts[0], ids), ts[1], ids)
  {
    hide CanTurn, Handle;
    var h1 := Handle(cfg, h, ts[0], ids);
    var h2 := Handle(cfg, h1, ts[1], ids);
    assert ts[1..][0] == ts[1] && ts[1..][1..] == [];
    assert IsHandling(cfg, h2, ts[1..][1..], ids) && Handled(cfg, h2, ts[1..][1..], ids) == h2;
    assert IsHandling(cfg, h1, ts[1..], ids) && Handled(cfg, h1, ts[1..], ids) == h2;
  }

  // ---- A switch that is left over ----

  predicate Creates(t: Turn, id: ReminderId) {
    t.Did? && t.event.Create? && t.event.cmd.id == id
  }

  /** The id is neither stored nor in the switch map, but its entity may still be declared. */
  ghost predicate LeftOver(h: HandlerState, ids: set<ReminderId>, id: ReminderId) {
    InHand(h, ids) && id in ids && id !in h.switches && id !in h.world.rows
  }

  /** The topic holds what it held, or what the entity remembers for it. */
  predicate KeepsOrRepeats(before: map<string, R.Payload>, after: map<string, R.Payload>, topic: string,
                           remembered: Option<R.Payload>) {
    || R.Held(after, topic) == R.Held(before, topic)
    || (remembered.Some? && R.Held(after, topic) == R.Kept(remembered.value))
  }

  function RememberedDiscovery(rt: R.State, kind: Kind, key: string): Option<R.Payload> {
    if key in rt.entities && rt.entities[key].kind == kind then Some(rt.entities[key].discovery) else None
  }

  function RememberedState(rt: R.State, key: string): Option<R.Payload> {
    if key in rt.entities && rt.entities[key].hasState then Some(rt.entities[key].lastState) else None
  }

  /** At most the process has forgotten the key, and has written again to its topics what it had remembered. */
  ghost predicate Lingers(cfg: R.Config, rt: R.State, rt': R.State, key: string) {
    var before, after := rt.broker.retained, rt'.broker.retained;
    && (key in rt'.entities ==> key in rt.entities && rt'.entities[key] == rt.entities[key])
    && KeepsOrRepeats(before, after, R.StateOf(cfg, key), RememberedState(rt, key))
    && (forall kind :: KeepsOrRepeats(before, after, R.Discovery(cfg, kind, key), RememberedDiscovery(rt, kind, key)))
  }

  lemma LingersOn(cfg: R.Config, rt: R.State, rt1: R.State, rt2: R.State, key: string)
    requires Lingers(cfg, rt, rt1, key) && Lingers(cfg, rt1, rt2, key)
    ensures Lingers(cfg, rt, rt2, key)
  {
    hide R.Held, R.StateOf, R.Discovery;
    forall kind
      ensures KeepsOrRepeats(rt.broker.retained, rt2.broker.retained, R.Discovery(cfg, kind, key),
                             RememberedDiscovery(rt, kind, key))
    {
      assert KeepsOrRepeats(rt.broker.retained, rt1.broker.retained, R.Discovery(cfg, kind, key),
                            RememberedDiscovery(rt, kind, key));
    }
  }

  lemma SameKeyLingers(cfg: R.Config, rt: R.State, rt': R.State, key: string)
    requires SameKey(cfg, rt, rt', key)
    ensures Lingers(cfg, rt, rt', key)
  {
    hide R.Held, R.StateOf, R.Discovery;
  }

  lemma RestartedLingers(cfg: R.Config, rt: R.State, rt': R.State, key: string)
    requires SameKey(cfg, R.Restarted(cfg, rt), rt', key)
    ensures Lingers(cfg, rt, rt', key)
  {
    hide R.Held, R.StateOf, R.Discovery;
  }

  lemma ReconnectedLingers(cfg: R.Config, rt: R.State, order: seq<string>, key: string)
    requires R.Inv(rt) && R.IsListing(order, rt.entities.Keys) && forall k :: k in order ==> k in rt.entities
    ensures var rt' := R.HandleReconnect(cfg, rt, order).0;
            Lingers(cfg, rt, rt', key) && (key in rt'.entities <==> key in rt.entities)
  {
    hide R.HandleReconnect, R.IsListing, R.Mirrors, R.Discovery, R.StateOf, R.Held, IsKey;
    ReconnectHeals(cfg, rt, order);
  }

  lemma EventSpares(cfg: R.Config, h: HandlerState, t: Turn, ids: set<ReminderId>, id: ReminderId)
    requires LeftOver(h, ids, id) && CanTurn(h, t, ids) && t.Did? && !Creates(t, id)
    ensures var h' := Handle(cfg, h, t, ids);
            SameKey(cfg, h.rt, h'.rt, EntityKey(id)) && id !in h'.switches && id !in h'.world.rows
  {
    var world := Runs.Step(h.world, t.event);
    SameAsItself(cfg, h.rt, EntityKey(id));
    hide Sound, SwitchesShown, DeclareEntity, Sync, W.Create, W.Ack, W.Tick, W.Delete, Descends, SameKey, EntityKey,
         Runs.CanHappen, R.IsListing;
    if t.event.Create? {
      CreateStores(h.world, t.event.cmd, t.event.at);
      CreateSpares(cfg, h, t.event.cmd, t.event.at, ids, id);
    } else {
      StepDescends(h.world, t.event);
      DescendantsInOrder(h, world, ids);
      NotInDescendants(h.world.rows, world.rows, id);
      SyncSpares(cfg, h.(world := world), t.gone, t.listed, ids, id);
      SyncKeepsShown(cfg, h.(world := world), t.gone, t.listed, ids);
    }
  }

  lemma NotInDescendants(rows: map<ReminderId, Reminder>, rows': map<ReminderId, Reminder>, id: ReminderId)
    requires Descends(rows, rows') && id !in rows
    ensures id !in rows'
  {
  }

  lemma CreateSpares(cfg: R.Config, h: HandlerState, cmd: CreateCommand, at: Time, ids: set<ReminderId>, id: ReminderId)
    requires InHand(h, ids) && id in ids && cmd.id in ids && cmd.id != id
    ensures var (w', created) := W.Create(h.world, cmd, at);
            created.Ok? ==>
              var h' := DeclareEntity(cfg, h.(world := w'), created.value).0;
              && SameKey(cfg, h.rt, h'.rt, EntityKey(id)) && (id in h'.switches <==> id in h.switches)
              && h'.world == w'
  {
    hide W.Create, DeclareEntity, SameKey, EntityKey, Declarable, EntityIsOff, R.Inv;
    CreateStores(h.world, cmd, at);
    var (w', created) := W.Create(h.world, cmd, at);
    if created.Ok? {
      DeclareSpares(cfg, h.(world := w'), created.value, EntityKey(id));
      DeclareEffect(cfg, h.(world := w'), created.value);
    }
  }

  lemma RestartSpares(cfg: R.Config, h: HandlerState, listed: seq<ReminderId>, ids: set<ReminderId>, id: ReminderId)
    requires LeftOver(h, ids, id) && CanTurn(h, Restarted(listed), ids)
    ensures var h' := Handle(cfg, h, Restarted(listed), ids);
            && SameKey(cfg, R.Restarted(cfg, h.rt), h'.rt, EntityKey(id))
            && id !in h'.switches && id !in h'.world.rows
  {
    var h0 := Rebooted(cfg, h);
    var h1 := h0.(world := h.world.Called());
    RebootedInHand(cfg, h, ids);
    SameAsItself(cfg, h0.rt, EntityKey(id));
    if !h.world.NextFails() {
      ListedRows(h.world.rows, listed, ids);
      InWorld(h0, h.world.Called(), ids);
      DeclarableIsStored(h.world.rows);
      hide Sound, SwitchesShown, Start, SyncRows, SameKey, EntityKey, R.IsListing, UpToDate, Raised, DeclarableIds,
           Calm, OwnersKnown, W.RowsOf, Declarable;
      StartIsSyncRows(cfg, h0, listed, ids);
      SyncRowsSpares(cfg, h1, W.RowsOf(h.world.rows, listed), ids, id);
      SecondLoop(cfg, h1, listed, ids);
      assert id !in Start(cfg, h0, listed).switches.Keys;
    }
  }

  /** One turn, with any outcomes. */
  lemma HandleLingers(cfg: R.Config, h: HandlerState, t: Turn, ids: set<ReminderId>, id: ReminderId)
    requires LeftOver(h, ids, id) && CanTurn(h, t, ids) && !Creates(t, id)
    ensures var h' := Handle(cfg, h, t, ids);
            && LeftOver(h', ids, id) && Lingers(cfg, h.rt, h'.rt, EntityKey(id))
            && (!t.Restarted? && EntityKey(id) in h.rt.entities ==> EntityKey(id) in h'.rt.entities)
  {
    HandleKeepsInHand(cfg, h, t, ids);
    var rt' := Handle(cfg, h, t, ids).rt;
    if t.Restarted? {
      hide Handle, EntityKey, Lingers, SameKey, InHand;
      RestartSpares(cfg, h, t.listed, ids, id);
      RestartedLingers(cfg, h.rt, rt', EntityKey(id));
    } else if t.Reconnected? {
      hide EntityKey, Lingers, R.HandleReconnect, R.IsListing, SwitchesShown, GoodRows, KeysDiffer, OwnKeys, R.Inv;
      ReconnectedLingers(cfg, h.rt, t.order, EntityKey(id));
    } else {
      hide Handle, EntityKey, Lingers, InHand, R.Held, R.StateOf, R.Discovery, CanTurn;
      EventSpares(cfg, h, t, ids, id);
      SameKeyLingers(cfg, h.rt, rt', EntityKey(id));
    }
  }

  /**
   * An entity whose reminder has left both the store and the switch map is never removed. Whatever calls fail, until its
   * id is created again no run clears a topic of it, and it stays declared until the process restarts.
   */
  lemma {:induction false} RunLingers(cfg: R.Config, h: HandlerState, ts: seq<Turn>, ids: set<ReminderId>, id: ReminderId)
    requires LeftOver(h, ids, id) && IsHandling(cfg, h, ts, ids) && forall t :: t in ts ==> !Creates(t, id)
    ensures var h' := Handled(cfg, h, ts, ids);
            && LeftOver(h', ids, id) && Lingers(cfg, h.rt, h'.rt, EntityKey(id))
            && ((forall t :: t in ts ==> !t.Restarted?) && EntityKey(id) in h.rt.entities ==>
                  EntityKey(id) in h'.rt.entities)
    decreases |ts|
  {
    hide LeftOver, Lingers, Handle, CanTurn, Creates, EntityKey;
    if ts == [] {
      SameAsItself(cfg, h.rt, EntityKey(id));
      SameKeyLingers(cfg, h.rt, h.rt, EntityKey(id));
    } else {
      assert ts[0] in ts && forall t :: t in ts[1..] ==> t in ts;
      var h1 := Handle(cfg, h, ts[0], ids);
      HandleLingers(cfg, h, ts[0], ids, id);
      RunLingers(cfg, h1, ts[1..], ids, id);
      LingersOn(cfg, h.rt, h1.rt, Handled(cfg, h, ts, ids).rt, EntityKey(id));
    }
  }

  /**
   * A failed removal is final: after the sync in whose first loop the switch's turn came, and any further turns but a
   * restart, whatever else fails, the entity is still declared exactly if its own two publishes were not both
   * acknowledged then. Restarts aside, its topics too keep what they held, or get back what the entity remembers.
   */
  lemma FailedRemovalIsFinal(cfg: R.Config, h: HandlerState, before: seq<ReminderId>, id: ReminderId,
                             after: seq<ReminderId>, listed: seq<ReminderId>, ts: seq<Turn>, ids: set<ReminderId>)
    requires InHand(h, ids) && !h.world.NextFails() && id !in h.world.rows
    requires R.IsListing(before + [id] + after, h.switches.Keys) && R.IsListing(listed, h.world.rows.Keys)
    requires forall x :: x in listed ==> x in h.world.rows
    requires IsHandling(cfg, Sync(cfg, h, before + [id] + after, listed), ts, ids)
    requires forall t :: t in ts ==> !Creates(t, id)
    ensures var h1 := Sync(cfg, h, before + [id] + after, listed);
            var h' := Handled(cfg, h1, ts, ids);
            && id !in h'.switches && Lingers(cfg, h1.rt, h'.rt, EntityKey(id))
            && ((forall t :: t in ts ==> !t.Restarted?) ==>
                  (EntityKey(id) in h'.rt.entities <==>
                   !R.TwoAcked(SyncGone(cfg, h.(world := h.world.Called()), before).rt.broker)))
  {
    var gone := before + [id] + after;
    var h1 := Sync(cfg, h, gone, listed);
    assert gone[|before|] == id && id in gone && id in h.switches.Keys;
    hide Sound, SwitchesShown, Lingers, Sync, SyncGone, R.TwoAcked, EntityKey, R.IsListing, IsHandling, Handled, Creates;
    RemovalStaysThroughSync(cfg, h, before, id, after, listed, ids);
    SyncKeepsShown(cfg, h, gone, listed, ids);
    KnownId(h, id, ids);
    RunLingers(cfg, h1, ts, ids, id);
    OnlyForgotten(cfg, h1.rt, Handled(cfg, h1, ts, ids).rt, EntityKey(id));
  }

  lemma OnlyForgotten(cfg: R.Config, rt: R.State, rt': R.State, key: string)
    requires Lingers(cfg, rt, rt', key)
    ensures key in rt'.entities ==> key in rt.entities
  {
  }

  lemma RemovalStaysThroughSync(cfg: R.Config, h: HandlerState, before: seq<ReminderId>, id: ReminderId,
                                after: seq<ReminderId>, listed: seq<ReminderId>, ids: set<ReminderId>)
    requires InHand(h, ids) && !h.world.NextFails() && id !in h.world.rows
    requires R.IsListing(before + [id] + after, h.switches.Keys) && R.IsListing(listed, h.world.rows.Keys)
    requires forall x :: x in listed ==> x in h.world.rows
    ensures var h1 := Sync(cfg, h, before + [id] + after, listed);
            && id !in h1.switches
            && (EntityKey(id) in h1.rt.entities <==>
                !R.TwoAcked(SyncGone(cfg, h.(world := h.world.Called()), before).rt.broker))
  {
    var gone, hc := before + [id] + after, h.(world := h.world.Called());
    assert gone[|before|] == id && id in gone && id in h.switches.Keys;
    InWorld(h, h.world.Called(), ids);
    KnownId(h, id, ids);
    ListedRows(h.world.rows, listed, ids);
    DeclarableIsStored(h.world.rows);
    hide Sound, SwitchesShown, SyncGone, SyncRows, R.TwoAcked, EntityKey, R.IsListing, W.RowsOf, DeclarableIds, UpToDate,
         OwnersKnown, Raised, Calm;
    FirstLoop(cfg, hc, gone, ids);
    SyncBothLoops(cfg, hc, gone, listed, ids);
    RemovalStaysIff(cfg, hc, before, id, after, ids);
    SyncRowsSpares(cfg, SyncGone(cfg, hc, gone), W.RowsOf(h.world.rows, listed), ids, id);
    assert id !in Sync(cfg, h, gone, listed).switches.Keys;
  }

  /** The same state, with all coming calls succeeding. */
  function Unfailing(h: HandlerState): HandlerState {
    h.(world := h.world.(script := []), rt := h.rt.(broker := h.rt.broker.(script := [])))
  }

  /**
   * After a run with any failing calls, one sync and one reconnect without failures show every stored reminder that
   * can have a switch as it is.
   */
  lemma FailingRunsRecover(cfg: R.Config, start: HandlerState, ts: seq<Turn>, ids: set<ReminderId>, h: HandlerState,
                           gone: seq<ReminderId>, listed: seq<ReminderId>, h': HandlerState, order: seq<string>)
    requires InHand(start, ids) && IsHandling(cfg, start, ts, ids) && h == Unfailing(Handled(cfg, start, ts, ids))
    requires R.IsListing(gone, h.switches.Keys) && R.IsListing(listed, h.world.rows.Keys)
    requires (forall id :: id in listed ==> id in h.world.rows) && h' == Sync(cfg, h, gone, listed)
    requires R.IsListing(order, h'.rt.entities.Keys) && forall k :: k in order ==> k in h'.rt.entities
    ensures DeclarableIds(h.world.rows) <= h'.switches.Keys <= h.world.rows.Keys
    ensures var (rt', ok) := R.HandleReconnect(cfg, h'.rt, order);
            ok && forall id :: id in h'.switches ==> Held(cfg, rt', id) == Some(Indicated(h.world.rows[id]))
  {
    hide IsHandling, Handled, EntityKey, R.Inv, KeysDiffer, Sync, R.HandleReconnect, DeclarableIds, Held, Indicated,
         R.IsListing;
    RunKeepsInHand(cfg, start, ts, ids);
    StopFailing(Handled(cfg, start, ts, ids), ids);
    RecoversAfterFailures(cfg, h, gone, listed, h', order, ids);
  }

  lemma StopFailing(h: HandlerState, ids: set<ReminderId>)
    requires InHand(h, ids)
    ensures InHand(Unfailing(h), ids)
  {
    hide EntityKey, IsKey;
  }

  /**
   * A message on the command topic of a reminder's switch. If it says on, in any case and with white space around, and
   * the owner is one of the targets, the reminder leaves the store, its switch leaves the map and its state topic is
   * cleared; any other message, and any other owner, changes nothing.
   */
  lemma SwitchIsOperated(cfg: R.Config, h: HandlerState, ids: set<ReminderId>, id: ReminderId, payload: R.Payload, at: Time,
                         gone: seq<ReminderId>, listed: seq<ReminderId>)
    requires Synced(cfg, h, ids) && id in h.switches && "+" !in Levels(cfg.appPrefix)
    requires id in h.world.rows && CanTurn(h, Did(Runs.Ack(id, h.world.rows[id].meta.owner, at), gone, listed), ids)
    ensures var command := R.HandleCommand(cfg, h.rt, cfg.appPrefix + "/entities/" + EntityKey(id) + "/set", payload);
            var r := h.world.rows[id];
            && (R.SaysOn(payload) ==> command == Some((R.Handler(id, r.meta.owner), true)))
            && (command.Some? ==>
                  && command.value.0 == R.Handler(id, r.meta.owner)
                  && var h' := Callback(cfg, h, command.value.0, command.value.1, at, gone, listed);
                     if R.SaysOn(payload) && r.meta.owner in r.targets then
                       && h'.world == h.world.(rows := h.world.rows - {id})
                       && h'.switches.Keys == h.switches.Keys - {id}
                       && R.Held(h'.rt.broker.retained, cfg.appPrefix + "/entities/" + EntityKey(id) + "/state") == None
                     else h' == h)
  {
    var owner := h.world.rows[id].meta.owner;
    var t := Did(Runs.Ack(id, owner, at), gone, listed);
    SyncedWorld(cfg, h, ids);
    CommandOfSynced(cfg, h, ids, id, payload);
    AckedIff(h.world, id, owner, at);
    hide Synced, EntityKey, Levels, R.HandleCommand, R.SaysOn, R.SaysOff, Sync, W.Ack, R.Held, R.IsListing;
    assert Callback(cfg, h, R.Handler(id, owner), true, at, gone, listed) == Handle(cfg, h, t, ids);
    HandleKeepsSyncedIff(cfg, h, t, ids);
    OthersAreClean(h, t);
    if owner in h.world.rows[id].targets {
      SwitchLeaves(cfg, h, Handle(cfg, h, t, ids), ids, id);
    }
  }

  lemma CommandOfSynced(cfg: R.Config, h: HandlerState, ids: set<ReminderId>, id: ReminderId, payload: R.Payload)
    requires Synced(cfg, h, ids) && id in h.switches && id in h.world.rows && "+" !in Levels(cfg.appPrefix)
    ensures var handler := R.Handler(id, h.world.rows[id].meta.owner);
            R.HandleCommand(cfg, h.rt, cfg.appPrefix + "/entities/" + EntityKey(id) + "/set", payload) ==
            if R.SaysOn(payload) then Some((handler, true))
            else if R.SaysOff(payload) then Some((handler, false))
            else None
    ensures !(R.SaysOn(payload) && R.SaysOff(payload))
  {
    hide EntityKey, Levels, R.HandleCommand, Calm, Declarable, EntityIsOff, OnlySwitches, Sound, SwitchesShown, OwnersKnown;
    CommandNamesItsReminder(cfg, h, ids, id, payload);
  }

  lemma SwitchLeaves(cfg: R.Config, h: HandlerState, h': HandlerState, ids: set<ReminderId>, id: ReminderId)
    requires Synced(cfg, h, ids) && Synced(cfg, h', ids) && h'.world.rows == h.world.rows - {id} && id in h.switches
    ensures h'.switches.Keys == h.switches.Keys - {id}
    ensures R.Held(h'.rt.broker.retained, cfg.appPrefix + "/entities/" + EntityKey(id) + "/state") == None
  {
    hide EntityKey, Declarable, Calm, Sound, OnlySwitches, SwitchesShown, OwnersKnown, R.Held, CanHaveSwitch;
    KnownId(h, id, ids);
    SwitchShows(cfg, h', ids, id);
    assert h'.switches.Keys == DeclarableIds(h'.world.rows) && h.switches.Keys == DeclarableIds(h.world.rows);
  }

  lemma KnownId(h: HandlerState, id: ReminderId, ids: set<ReminderId>)
    requires SwitchesShown(h, ids) && id in h.switches
    ensures id in ids
  {
  }

  // ---- The life of a switch ----

  /** A reminder that is created and can have a switch is shown ON. */
  lemma CreatedIsShownOn(cfg: R.Config, h: HandlerState, t: Turn, ids: set<ReminderId>)
    requires Synced(cfg, h, ids) && CanTurn(h, t, ids) && CleanTurn(h, t) && t.Did? && t.event.Create?
    requires t.event.cmd.targets != {} && !t.event.cmd.schedule.kind.OtherKind?
    ensures var h' := Handle(cfg, h, t, ids);
            var id := t.event.cmd.id;
            && id in h'.world.rows && h'.world.rows[id].meta == t.event.cmd.meta
            && (CanHaveSwitch(h'.world.rows[id]) ==>
                  R.Held(h'.rt.broker.retained, cfg.appPrefix + "/entities/" + EntityKey(id) + "/state") == Some("ON"))
  {
    SyncedWorld(cfg, h, ids);
    CreatedAsAsked(h.world, t.event.cmd, t.event.at);
    HandleKeepsSyncedIff(cfg, h, t, ids);
    assert t.event.cmd.id in ids;
    assert Runs.Step(h.world, t.event) == W.Create(h.world, t.event.cmd, t.event.at).0;
    hide Synced, Handle, EntityKey, CanHaveSwitch, R.Held, W.Create, CanTurn, CleanTurn;
    SwitchShows(cfg, Handle(cfg, h, t, ids), ids, t.event.cmd.id);
  }

  /** When a tick sends a reminder that waits for an acknowledgement, its switch goes OFF. */
  lemma SentIsShownOff(cfg: R.Config, h: HandlerState, t: Turn, ids: set<ReminderId>, id: ReminderId)
    requires Synced(cfg, h, ids) && CanTurn(h, t, ids) && t.Did? && t.event.Tick? && id in h.switches
    requires id in h.world.rows && h.world.rows[id].policy.requiresAck && IsTold(h.world.rows[id], t.event.at)
    ensures var h', r := Handle(cfg, h, t, ids), h.world.rows[id];
            && SentTo(h'.world.log, id) == SentTo(h.world.log, id) + [W.Sent(id, r.targets, r.meta.message, t.event.at)]
            && id in h'.switches
            && R.Held(h'.rt.broker.retained, cfg.appPrefix + "/entities/" + EntityKey(id) + "/state") == Some("OFF")
  {
    SyncedWorld(cfg, h, ids);
    TickSendsWhatIsDue(h.world, t.event.order, t.event.at, id);
    HandleKeepsSyncedIff(cfg, h, t, ids);
    OthersAreClean(h, t);
    var h' := Handle(cfg, h, t, ids);
    KnownSwitch(cfg, h, ids, id);
    assert h'.world == W.Tick(h.world, t.event.order, t.event.at).0;
    hide Synced, Handle, EntityKey, R.Held, W.Tick, CanTurn, SentTo, IsTold;
    SwitchShows(cfg, h, ids, id);
    assert RowAt(h'.world.rows, id) == Some(Advanced(h.world.rows[id], t.event.at));
    SwitchShows(cfg, h', ids, id);
  }

  lemma KnownSwitch(cfg: R.Config, h: HandlerState, ids: set<ReminderId>, id: ReminderId)
    requires Synced(cfg, h, ids) && id in h.switches
    ensures id in ids
  {
    KnownId(h, id, ids);
  }
}
