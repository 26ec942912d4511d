/** One Home Assistant switch per stored reminder (internal/tech/homeassistant/devices/reminders/handler.go). */
module ReminderSync {
  import opened Options
  import opened Outcomes
  import opened PriceSlots
  import opened Reminders
  import W = ReminderStore
  import opened Topics
  import R = EntityRuntime
  import opened EntityReconnect

  // ---- Keys and names ----

  function SlugChar(c: char): char {
    if c == ' ' then '_' else if 'A' <= c <= 'Z' then c - 'A' + 'a' else c
  }

  function Slug(id: ReminderId): string {
    var trimmed := TrimSpace(id);
    seq(|trimmed|, i requires 0 <= i < |trimmed| => SlugChar(trimmed[i]))
  }

  function EntityKey(id: ReminderId): string {
    "reminder_" + Slug(id)
  }

  function SwitchName(message: string): string {
    if |message| > 64 then message[..64] else message
  }

  /** The JSON object on the discovery topic; only that it is not empty matters here. */
  function SwitchDiscovery(name: string): R.Payload {
    "{" + name + "}"
  }

  /** Pending an acknowledgement. */
  predicate EntityIsOff(r: Reminder) {
    r.policy.requiresAck && r.state.fireCount > 0
  }

  /** What a reminder needs to get a switch. */
  predicate Declarable(r: Reminder) {
    '/' !in r.id && TrimSpace(SwitchName(r.meta.message)) != ""
  }

  /** In its first 64 characters the message has one that is not white space, and the id has no slash. */
  predicate CanHaveSwitch(r: Reminder) {
    && '/' !in r.id
    && exists i :: 0 <= i < |r.meta.message| && i < 64 && !IsSpace(r.meta.message[i])
  }

  lemma DeclarableIff(r: Reminder)
    ensures Declarable(r) <==> CanHaveSwitch(r)
  {
    var name := SwitchName(r.meta.message);
    TrimmedAway(name);
    if AllSpace(name) {
      forall i | 0 <= i < |r.meta.message| && i < 64 ensures IsSpace(r.meta.message[i]) {
        assert name[i] == r.meta.message[i];
      }
    }
  }

  lemma TrimmedAway(s: string)
    ensures TrimSpace(s) == "" <==> AllSpace(s)
  {
    var a, b := TrimCuts(s);
    if TrimSpace(s) != "" {
      assert s[|a|] == TrimSpace(s)[0];
    }
  }

  /** The entity key of a reminder is valid, and already trimmed, exactly when the id has no slash. */
  lemma EntityKeyIsKey(id: ReminderId)
    ensures IsKey(EntityKey(id)) <==> '/' !in id
    ensures ValidateRuntimeKey(EntityKey(id)) == if '/' in id then None else Some(EntityKey(id))
    ensures TrimSpace(EntityKey(id)) == EntityKey(id)
  {
    var a, b := TrimCuts(id);
    var trimmed, key := TrimSpace(id), EntityKey(id);
    TrimKeeps(id, '/');
    assert Tight(key) by {
      assert key[0] == 'r';
      if trimmed == "" {
        assert key[|key| - 1] == '_';
      } else {
        assert key[|key| - 1] == SlugChar(trimmed[|trimmed| - 1]);
      }
    }
    SlashesOfSlug(id);
    TightIsTrimmed(key);
    ValidatedIsKey(key);
  }

  lemma SlashesOfSlug(id: ReminderId)
    ensures '/' in EntityKey(id) <==> '/' in TrimSpace(id)
  {
    var trimmed, key := TrimSpace(id), EntityKey(id);
    hide TrimSpace;
    if '/' in trimmed {
      var i :| 0 <= i < |trimmed| && trimmed[i] == '/';
      assert key[9 + i] == '/';
    }
    if '/' in key {
      var i :| 0 <= i < |key| && key[i] == '/';
      assert i >= 9 && key[i] == SlugChar(trimmed[i - 9]);
    }
  }

  // ---- The handler ----

  /** What the handler knows about a switch: the key its handle was given and what it last showed. */
  datatype SwitchEntry = SwitchEntry(key: string, isOff: bool)

  datatype HandlerState = HandlerState(world: W.World, switches: map<ReminderId, SwitchEntry>, rt: R.State)

  function SwitchSpec(r: Reminder): R.Spec {
    var name := SwitchName(r.meta.message);
    R.Spec(EntityKey(r.id), Switch, name, SwitchDiscovery(name))
  }

  /** A failing publish of the state is logged only. */
  function DeclareEntity(cfg: R.Config, h: HandlerState, r: Reminder): (HandlerState, bool) {
    var (rt, declared) := R.Declare(cfg, h.rt, SwitchSpec(r));
    if declared.None? then (h.(rt := rt), false)
    else
      var key := declared.value;
      var rt' := R.SetState(cfg, rt, key, R.BoolPayload(!EntityIsOff(r))).0;
      var (rt'', ok) := R.OnCommand(rt', key, R.Handler(r.id, r.meta.owner));
      if !ok then (h.(rt := rt''), false)
      else (h.(rt := rt'', switches := h.switches[r.id := SwitchEntry(key, EntityIsOff(r))]), true)
  }

  /** The first loop of syncEntities: switches whose reminder is gone; a failing removal is logged only. */
  function SyncGone(cfg: R.Config, h: HandlerState, gone: seq<ReminderId>): HandlerState
    decreases |gone|
  {
    if gone == [] then h
    else if gone[0] in h.world.rows then SyncGone(cfg, h, gone[1..])
    else
      var rt := R.Remove(cfg, h.rt, EntityKey(gone[0])).0;
      SyncGone(cfg, h.(rt := rt, switches := h.switches - {gone[0]}), gone[1..])
  }

  function SyncOne(cfg: R.Config, h: HandlerState, r: Reminder): HandlerState {
    if r.id !in h.switches then DeclareEntity(cfg, h, r).0
    else
      var entry := h.switches[r.id];
      if entry.isOff == EntityIsOff(r) then h
      else
        var rt := R.SetState(cfg, h.rt, entry.key, R.BoolPayload(!EntityIsOff(r))).0;
        h.(rt := rt, switches := h.switches[r.id := entry.(isOff := EntityIsOff(r))])
  }

  /** The second loop: new switches and changed ones. */
  function SyncRows(cfg: R.Config, h: HandlerState, rems: seq<Reminder>): HandlerState
    decreases |rems|
  {
    if rems == [] then h else SyncRows(cfg, SyncOne(cfg, h, rems[0]), rems[1..])
  }

  /** The loop of Start: one declaration for every stored reminder; a failing one is logged only. */
  function DeclareAll(cfg: R.Config, h: HandlerState, rems: seq<Reminder>): HandlerState
    decreases |rems|
  {
    if rems == [] then h else DeclareAll(cfg, DeclareEntity(cfg, h, rems[0]).0, rems[1..])
  }

  /** Start of a process with no switches, after its subscriptions. */
  function Start(cfg: R.Config, h: HandlerState, listed: seq<ReminderId>): HandlerState
    requires forall id :: id in listed ==> id in h.world.rows
  {
    if h.world.NextFails() then h.(world := h.world.Called())
    else DeclareAll(cfg, h.(world := h.world.Called()), W.RowsOf(h.world.rows, listed))
  }

  /** gone and listed are the orders in which the switch map and the store are listed. */
  function Sync(cfg: R.Config, h: HandlerState, gone: seq<ReminderId>, listed: seq<ReminderId>): HandlerState
    requires forall id :: id in listed ==> id in h.world.rows
  {
    if h.world.NextFails() then h.(world := h.world.Called())
    else
      var h' := h.(world := h.world.Called());
      SyncRows(cfg, SyncGone(cfg, h', gone), W.RowsOf(h.world.rows, listed))
  }

  /** The callback of a switch: turned on it acknowledges, and syncs if that succeeds; turned off it does nothing. */
  function Callback(cfg: R.Config, h: HandlerState, c: R.Handler, on: bool, at: Time, gone: seq<ReminderId>,
                    listed: seq<ReminderId>): HandlerState
    requires forall id :: id in listed ==> id in W.Ack(h.world, c.reminder, c.owner, at).0.rows
  {
    if !on then h
    else
      var (world, ok) := W.Ack(h.world, c.reminder, c.owner, at);
      if ok then Sync(cfg, h.(world := world), gone, listed) else h.(world := world)
  }

  // ---- What holds whatever fails ----

  /** The switch map, the runtime and the callback agree about one switch. */
  ghost predicate Shown(h: HandlerState, id: ReminderId) {
    && id in h.switches && h.switches[id].key == EntityKey(id)
    && EntityKey(id) in h.rt.entities
    && h.rt.entities[EntityKey(id)].hasState
    && h.rt.entities[EntityKey(id)].lastState == R.BoolPayload(!h.switches[id].isOff)
    && EntityKey(id) in h.rt.handlers && h.rt.handlers[EntityKey(id)].reminder == id
  }

  /** The process remembers for every switch what it is to show, and whose it is. */
  ghost predicate SwitchesShown(h: HandlerState, ids: set<ReminderId>) {
    forall id :: id in h.switches ==> id in ids && Shown(h, id)
  }

  /** The callback of every stored reminder's switch acknowledges in the name of its owner. */
  ghost predicate OwnersKnown(h: HandlerState) {
    forall id :: id in h.switches && id in h.world.rows ==> KnowsOwner(h, id, h.world.rows[id].meta.owner)
  }

  ghost predicate KnowsOwner(h: HandlerState, id: ReminderId, owner: string) {
    EntityKey(id) in h.rt.handlers && h.rt.handlers[EntityKey(id)].owner == owner
  }

  /** Ids for which the keys of the switches are distinct. */
  ghost predicate KeysDiffer(ids: set<ReminderId>) {
    forall a, b :: a in ids && b in ids && EntityKey(a) == EntityKey(b) ==> a == b
  }

  /** No other part of the program declares these keys as anything but switches. */
  ghost predicate OwnKeys(rt: R.State, ids: set<ReminderId>) {
    forall id :: id in ids && EntityKey(id) in rt.kinds ==> rt.kinds[EntityKey(id)] == Switch
  }

  ghost predicate Sound(h: HandlerState, ids: set<ReminderId>) {
    R.Inv(h.rt) && KeysDiffer(ids) && OwnKeys(h.rt, ids)
  }

  ghost predicate GoodRows(rows: map<ReminderId, Reminder>, ids: set<ReminderId>) {
    forall id :: id in rows ==> id in ids && rows[id].id == id
  }

  /** The key is registered, or one of its topics holds something, only if it may, and then as a switch. */
  ghost predicate TracesOnlyIf(cfg: R.Config, rt: R.State, key: string, may: bool) {
    && (key in rt.kinds ==> may)
    && (R.Held(rt.broker.retained, R.StateOf(cfg, key)).Some? ==> may)
    && (forall kind :: R.Held(rt.broker.retained, R.Discovery(cfg, kind, key)).Some? ==> may && kind == Switch)
  }

  /** Of these ids only the xs have left traces. */
  ghost predicate OnlyTracesOf(cfg: R.Config, rt: R.State, ids: set<ReminderId>, xs: set<ReminderId>) {
    forall id :: id in ids ==> TracesOnlyIf(cfg, rt, EntityKey(id), id in xs)
  }

  /** Of these ids only those with a switch have. */
  ghost predicate OnlySwitches(cfg: R.Config, h: HandlerState, ids: set<ReminderId>) {
    OnlyTracesOf(cfg, h.rt, ids, h.switches.Keys)
  }

  /** The broker holds what the entities remember, and no publish is going to fail. */
  ghost predicate Calm(cfg: R.Config, rt: R.State) {
    R.Mirrors(cfg, rt) && rt.broker.script == []
  }

  // ---- Declaring one switch ----

  lemma DeclareIsAccepted(rt: R.State, r: Reminder)
    requires R.Inv(rt) && (EntityKey(r.id) in rt.kinds ==> rt.kinds[EntityKey(r.id)] == Switch)
    ensures R.Declares(rt, SwitchSpec(r)) <==> Declarable(r)
    ensures Declarable(r) ==> ValidateRuntimeKey(SwitchSpec(r).key) == Some(EntityKey(r.id))
  {
    hide TrimSpace, EntityKey, ValidateRuntimeKey, IsKey, SwitchName;
    EntityKeyIsKey(r.id);
  }

  /** An accepted declaration puts the switch, its state and its callback in place; any other leaves them all alone. */
  lemma DeclareEffect(cfg: R.Config, h: HandlerState, r: Reminder)
    requires R.Inv(h.rt) && (EntityKey(r.id) in h.rt.kinds ==> h.rt.kinds[EntityKey(r.id)] == Switch)
    ensures var (h', ok) := DeclareEntity(cfg, h, r);
            && R.Inv(h'.rt) && h'.world == h.world
            && (ok <==> Declarable(r) && h.rt.broker.NextOutcome() == Acked)
            && (if ok then
                  && h'.switches == h.switches[r.id := SwitchEntry(EntityKey(r.id), EntityIsOff(r))]
                  && EntityKey(r.id) in h'.rt.entities
                  && h'.rt.entities == h.rt.entities[EntityKey(r.id) := h'.rt.entities[EntityKey(r.id)]]
                  && h'.rt.entities[EntityKey(r.id)].hasState
                  && h'.rt.entities[EntityKey(r.id)].lastState == R.BoolPayload(!EntityIsOff(r))
                  && h'.rt.kinds == h.rt.kinds[EntityKey(r.id) := Switch]
                  && h'.rt.handlers == h.rt.handlers[EntityKey(r.id) := R.Handler(r.id, r.meta.owner)]
                else
                  h' == h.(rt := h.rt.(broker := h'.rt.broker)))
            && (!Declarable(r) ==> h' == h)
            && (h.rt.broker.script == [] ==> h'.rt.broker.script == [])
  {
    hide EntityKey, Declarable, R.Publish, EntityIsOff, R.Inv, DeclareEntity;
    if Declarable(r) {
      DeclarationTaken(cfg, h, r);
    } else {
      UndeclarableIsLeft(cfg, h, r);
    }
  }

  lemma UndeclarableIsLeft(cfg: R.Config, h: HandlerState, r: Reminder)
    requires !Declarable(r)
    ensures DeclareEntity(cfg, h, r) == (h, false)
  {
    hide TrimSpace, EntityKey, SwitchName, ValidateRuntimeKey, R.Publish;
    EntityKeyIsKey(r.id);
  }

  lemma DeclarationTaken(cfg: R.Config, h: HandlerState, r: Reminder)
    requires R.Inv(h.rt) && (EntityKey(r.id) in h.rt.kinds ==> h.rt.kinds[EntityKey(r.id)] == Switch) && Declarable(r)
    ensures var (h', ok) := DeclareEntity(cfg, h, r);
            && R.Inv(h'.rt) && h'.world == h.world && (ok <==> h.rt.broker.NextOutcome() == Acked)
            && (if ok then
                  && h'.switches == h.switches[r.id := SwitchEntry(EntityKey(r.id), EntityIsOff(r))]
                  && EntityKey(r.id) in h'.rt.entities
                  && h'.rt.entities == h.rt.entities[EntityKey(r.id) := h'.rt.entities[EntityKey(r.id)]]
                  && h'.rt.entities[EntityKey(r.id)].hasState
                  && h'.rt.entities[EntityKey(r.id)].lastState == R.BoolPayload(!EntityIsOff(r))
                  && h'.rt.kinds == h.rt.kinds[EntityKey(r.id) := Switch]
                  && h'.rt.handlers == h.rt.handlers[EntityKey(r.id) := R.Handler(r.id, r.meta.owner)]
                else
                  h' == h.(rt := h.rt.(broker := h'.rt.broker)))
            && (h.rt.broker.script == [] ==> h'.rt.broker.script == [])
  {
    hide TrimSpace, EntityKey, ValidateRuntimeKey, IsKey, Declarable, R.Publish, R.Discovery, R.StateOf, R.Held,
         SwitchName, SwitchDiscovery, EntityIsOff, R.Declares, R.Declare, R.Inv, R.SetState, R.OnCommand, Calm;
    DeclareIsAccepted(h.rt, r);
    var spec := SwitchSpec(r);
    R.DeclareOutcome(cfg, h.rt, spec);
    R.DeclareKeepsInv(cfg, h.rt, spec);
    R.PublishHolds(h.rt.broker, R.Discovery(cfg, Switch, EntityKey(r.id)), spec.discovery);
    StateAndCallback(cfg, R.Declare(cfg, h.rt, spec).0, EntityKey(r.id), R.BoolPayload(!EntityIsOff(r)),
                     R.Handler(r.id, r.meta.owner));
  }

  /** What declareEntity does after the declaration, whether or not the state gets through. */
  lemma StateAndCallback(cfg: R.Config, rt: R.State, key: string, payload: R.Payload, handler: R.Handler)
    requires R.Inv(rt)
    ensures var rt1 := R.SetState(cfg, rt, key, payload).0;
            var (rt2, ok) := R.OnCommand(rt1, key, handler);
            && R.Inv(rt2)
            && (key in rt.entities && rt.entities[key].kind == Switch ==>
                  && ok && rt2.kinds == rt.kinds && rt2.handlers == rt.handlers[key := handler]
                  && key in rt2.entities && rt2.entities == rt.entities[key := rt2.entities[key]]
                  && rt2.entities[key].hasState && rt2.entities[key].lastState == payload)
            && (rt.broker.script == [] ==> rt2.broker.script == [])
            && (Calm(cfg, rt) ==> Calm(cfg, rt2))
  {
    hide R.Publish, R.StateOf, R.Mirrors, IsKey;
    R.SetStateKeeps(cfg, rt, key, payload);
    R.PublishHolds(rt.broker, R.StateOf(cfg, key), payload);
    if Calm(cfg, rt) {
      R.SetStateMirrors(cfg, rt, key, payload);
      CallbackKeeps(cfg, R.SetState(cfg, rt, key, payload).0, key, handler);
    }
  }

  lemma CallbackKeeps(cfg: R.Config, rt: R.State, key: string, handler: R.Handler)
    requires R.Mirrors(cfg, rt)
    ensures R.Mirrors(cfg, R.OnCommand(rt, key, handler).0)
  {
  }

  /** Without failing calls the broker stays in step. */
  lemma DeclareKeepsCalm(cfg: R.Config, h: HandlerState, r: Reminder)
    requires R.Inv(h.rt) && Calm(cfg, h.rt) && (EntityKey(r.id) in h.rt.kinds ==> h.rt.kinds[EntityKey(r.id)] == Switch)
    ensures Calm(cfg, DeclareEntity(cfg, h, r).0.rt)
  {
    hide TrimSpace, EntityKey, ValidateRuntimeKey, IsKey, Declarable, R.Publish, R.Discovery, R.StateOf, R.Held,
         SwitchName, SwitchDiscovery, EntityIsOff, R.Declares, R.Declare, R.Mirrors;
    DeclareIsAccepted(h.rt, r);
    var spec := SwitchSpec(r);
    R.DeclareOutcome(cfg, h.rt, spec);
    R.DeclareKeepsInv(cfg, h.rt, spec);
    R.DeclareMirrors(cfg, h.rt, spec);
    if Declarable(r) {
      hide R.Inv;
      StateAndCallback(cfg, R.Declare(cfg, h.rt, spec).0, EntityKey(r.id), R.BoolPayload(!EntityIsOff(r)),
                       R.Handler(r.id, r.meta.owner));
    }
  }

  /** Without failing calls a reminder gets its switch exactly when its id has no slash and its name is not blank. */
  lemma DeclaredIffDeclarable(cfg: R.Config, h: HandlerState, r: Reminder)
    requires R.Inv(h.rt) && Calm(cfg, h.rt) && (EntityKey(r.id) in h.rt.kinds ==> h.rt.kinds[EntityKey(r.id)] == Switch)
    ensures DeclareEntity(cfg, h, r).1 <==> Declarable(r)
    ensures Declarable(r) ==> r.id in DeclareEntity(cfg, h, r).0.switches && Shown(DeclareEntity(cfg, h, r).0, r.id)
    ensures !Declarable(r) ==> DeclareEntity(cfg, h, r).0 == h
    ensures Calm(cfg, DeclareEntity(cfg, h, r).0.rt)
  {
    hide EntityKey, Declarable, DeclareEntity, R.Inv, R.Mirrors;
    DeclareEffect(cfg, h, r);
    DeclareKeepsCalm(cfg, h, r);
  }

  /** Declaring one switch keeps the others, and its own entry shown, with any outcome. */
  lemma DeclareKeepsShown(cfg: R.Config, h: HandlerState, r: Reminder, ids: set<ReminderId>)
    requires Sound(h, ids) && SwitchesShown(h, ids) && r.id in ids
    ensures var (h', ok) := DeclareEntity(cfg, h, r);
            && Sound(h', ids) && SwitchesShown(h', ids) && h'.world == h.world
            && (ok ==> KnowsOwner(h', r.id, r.meta.owner))
            && (forall id, owner :: id in ids && id != r.id && KnowsOwner(h, id, owner) ==> KnowsOwner(h', id, owner))
  {
    hide EntityKey, Declarable, DeclareEntity, R.Inv, EntityIsOff;
    DeclareEffect(cfg, h, r);
  }

  // ---- What a declaration leaves behind ----

  /** Of the entity topics only those of the switch with this key differ. */
  ghost predicate OnlySwitchTopics(cfg: R.Config, rt: R.State, rt': R.State, key: string) {
    && (forall kind, k :: kind != Switch || k != key ==>
          R.Held(rt'.broker.retained, R.Discovery(cfg, kind, k)) == R.Held(rt.broker.retained, R.Discovery(cfg, kind, k)))
    && (forall k :: k != key ==>
          R.Held(rt'.broker.retained, R.StateOf(cfg, k)) == R.Held(rt.broker.retained, R.StateOf(cfg, k)))
  }

  lemma SetStateTopics(cfg: R.Config, rt: R.State, key: string, payload: R.Payload)
    ensures OnlySwitchTopics(cfg, rt, R.SetState(cfg, rt, key, payload).0, key)
  {
    hide R.Publish, R.StateOf, R.Discovery, R.Held;
    R.PublishHolds(rt.broker, R.StateOf(cfg, key), payload);
    R.StatePublish(cfg, rt.broker, key, payload);
  }

  lemma DeclareTopics(cfg: R.Config, rt: R.State, spec: R.Spec, key: string)
    requires R.Inv(rt) && spec.kind == Switch
    requires R.Declares(rt, spec) ==> ValidateRuntimeKey(spec.key) == Some(key)
    ensures OnlySwitchTopics(cfg, rt, R.Declare(cfg, rt, spec).0, key)
  {
    hide R.Publish, R.StateOf, R.Discovery, R.Held, R.Declare, R.Declares, R.Inv;
    R.DeclareOutcome(cfg, rt, spec);
    R.PublishHolds(rt.broker, R.Discovery(cfg, Switch, key), spec.discovery);
    R.DiscoveryPublish(cfg, rt.broker, Switch, key, spec.discovery);
  }

  lemma SwitchTopicsChain(cfg: R.Config, rt: R.State, rt1: R.State, rt2: R.State, key: string)
    requires OnlySwitchTopics(cfg, rt, rt1, key) && OnlySwitchTopics(cfg, rt1, rt2, key)
    ensures OnlySwitchTopics(cfg, rt, rt2, key)
  {
    hide R.StateOf, R.Discovery, R.Held;
  }

  /** With any outcome. */
  lemma DeclareEntityTopics(cfg: R.Config, h: HandlerState, r: Reminder)
    requires R.Inv(h.rt) && (EntityKey(r.id) in h.rt.kinds ==> h.rt.kinds[EntityKey(r.id)] == Switch)
    ensures OnlySwitchTopics(cfg, h.rt, DeclareEntity(cfg, h, r).0.rt, EntityKey(r.id))
  {
    var spec, key, payload := SwitchSpec(r), EntityKey(r.id), R.BoolPayload(!EntityIsOff(r));
    hide TrimSpace, EntityKey, ValidateRuntimeKey, Declarable, R.Publish, R.Discovery, R.StateOf, R.Held, SwitchName,
         SwitchDiscovery, EntityIsOff, R.Declares, R.Declare, R.SetState, R.Inv, OnlySwitchTopics;
    DeclareIsAccepted(h.rt, r);
    R.DeclareOutcome(cfg, h.rt, spec);
    DeclareTopics(cfg, h.rt, spec, key);
    var rt1 := R.Declare(cfg, h.rt, spec).0;
    SetStateTopics(cfg, rt1, key, payload);
    var rt2 := R.SetState(cfg, rt1, key, payload).0;
    SwitchTopicsChain(cfg, h.rt, rt1, rt2, key);
    SameBroker(cfg, h.rt, rt2, R.OnCommand(rt2, key, R.Handler(r.id, r.meta.owner)).0, key);
  }

  lemma SameBroker(cfg: R.Config, rt: R.State, rt1: R.State, rt2: R.State, key: string)
    requires OnlySwitchTopics(cfg, rt, rt1, key) && rt2.broker == rt1.broker
    ensures OnlySwitchTopics(cfg, rt, rt2, key)
  {
  }

  /** Of the topics of these ids only those of switches differ, and only switches are newly registered. */
  ghost predicate Raised(cfg: R.Config, h: HandlerState, h': HandlerState, ids: set<ReminderId>) {
    && (forall id :: id in h.switches ==> id in h'.switches)
    && (forall k :: k in h.rt.kinds ==> k in h'.rt.kinds)
    && (forall id :: id in ids && id !in h'.switches ==>
          && (EntityKey(id) in h'.rt.kinds ==> EntityKey(id) in h.rt.kinds)
          && R.Held(h'.rt.broker.retained, R.StateOf(cfg, EntityKey(id))) ==
             R.Held(h.rt.broker.retained, R.StateOf(cfg, EntityKey(id))))
    && (forall id, kind :: id in ids && (id !in h'.switches || kind != Switch) ==>
          R.Held(h'.rt.broker.retained, R.Discovery(cfg, kind, EntityKey(id))) ==
          R.Held(h.rt.broker.retained, R.Discovery(cfg, kind, EntityKey(id))))
  }

  lemma RaisedChains(cfg: R.Config, h: HandlerState, h1: HandlerState, h2: HandlerState, ids: set<ReminderId>)
    requires Raised(cfg, h, h1, ids) && Raised(cfg, h1, h2, ids)
    ensures Raised(cfg, h, h2, ids)
  {
    hide EntityKey, R.Held, R.StateOf, R.Discovery;
  }

  lemma RaisedTraces(cfg: R.Config, h: HandlerState, h': HandlerState, ids: set<ReminderId>, xs: set<ReminderId>)
    requires Raised(cfg, h, h', ids) && h'.switches.Keys <= xs
    ensures OnlyTracesOf(cfg, h'.rt, ids, xs) <==> OnlyTracesOf(cfg, h.rt, ids, xs)
  {
    hide EntityKey, R.Held, R.StateOf, R.Discovery;
    forall id | id in h'.switches ensures id in xs {
      assert id in h'.switches.Keys;
    }
  }

  lemma DeclareRaises(cfg: R.Config, h: HandlerState, r: Reminder, ids: set<ReminderId>)
    requires Sound(h, ids) && r.id in ids && h.rt.broker.script == []
    ensures Raised(cfg, h, DeclareEntity(cfg, h, r).0, ids)
  {
    hide EntityKey, R.Held, R.StateOf, R.Discovery, DeclareEntity, Declarable, EntityIsOff, R.Inv;
    DeclareEffect(cfg, h, r);
    DeclareEntityTopics(cfg, h, r);
  }

  // ---- Updating and removing one switch ----

  lemma UpdateKeepsShown(cfg: R.Config, h: HandlerState, r: Reminder, ids: set<ReminderId>)
    requires Sound(h, ids) && SwitchesShown(h, ids) && r.id in h.switches
    ensures var h' := SyncOne(cfg, h, r);
            && Sound(h', ids) && SwitchesShown(h', ids) && h'.world == h.world
            && h'.rt.kinds == h.rt.kinds && h'.rt.handlers == h.rt.handlers && h'.rt.entities.Keys == h.rt.entities.Keys
            && h'.switches == h.switches[r.id := SwitchEntry(EntityKey(r.id), EntityIsOff(r))]
            && (Calm(cfg, h.rt) ==> Calm(cfg, h'.rt))
            && (h.rt.broker.script == [] ==> h'.rt.broker.script == [])
  {
    hide EntityKey, EntityIsOff, R.Mirrors, R.Inv, R.Publish;
    assert Shown(h, r.id);
    var key, payload := EntityKey(r.id), R.BoolPayload(!EntityIsOff(r));
    R.SetStateKeeps(cfg, h.rt, key, payload);
    R.PublishHolds(h.rt.broker, R.StateOf(cfg, key), payload);
    if Calm(cfg, h.rt) {
      R.SetStateMirrors(cfg, h.rt, key, payload);
    }
    if h.switches[r.id].isOff == EntityIsOff(r) {
      assert h.switches == h.switches[r.id := SwitchEntry(EntityKey(r.id), EntityIsOff(r))];
    }
  }

  lemma KeyIsNotEmpty(id: ReminderId)
    ensures EntityKey(id) != ""
  {
  }

  /** What a removal comes to: everything of the key forgotten, or nothing but publishes. */
  lemma RemoveEffect(cfg: R.Config, rt: R.State, id: ReminderId)
    requires R.Inv(rt)
    ensures var (rt', ok) := R.Remove(cfg, rt, EntityKey(id));
            && R.Inv(rt') && rt' == (if ok then R.Forget(rt, EntityKey(id)) else rt).(broker := rt'.broker)
            && (rt.broker.script == [] ==> ok && rt'.broker.script == [])
            && (EntityKey(id) in rt.entities ==> (ok <==> R.TwoAcked(rt.broker)))
            && (Calm(cfg, rt) ==> Calm(cfg, rt'))
  {
    hide EntityKey, R.Mirrors, R.Remove, TrimSpace, IsKey, R.Forget;
    EntityKeyIsKey(id);
    KeyIsNotEmpty(id);
    R.RemoveKeeps(cfg, rt, EntityKey(id));
    if Calm(cfg, rt) {
      R.RemoveMirrors(cfg, rt, EntityKey(id));
    }
    R.RemoveOutcome(cfg, rt, EntityKey(id));
    if EntityKey(id) in rt.entities {
      R.RemoveSucceedsIff(cfg, rt, EntityKey(id));
    }
  }

  /** Without failures a removal leaves no trace of its own switch, and makes none of others. */
  lemma RemoveTraces(cfg: R.Config, rt: R.State, id: ReminderId, ids: set<ReminderId>, xs: set<ReminderId>)
    requires R.Inv(rt) && KeysDiffer(ids) && id in ids && rt.broker.script == [] && OnlyTracesOf(cfg, rt, ids, xs)
    requires OwnKeys(rt, ids) && (id in xs ==> EntityKey(id) in rt.entities)
    ensures OnlyTracesOf(cfg, R.Remove(cfg, rt, EntityKey(id)).0, ids, xs - {id})
  {
    hide EntityKey, R.Remove, R.Discovery, R.StateOf, R.Held, TrimSpace, IsKey;
    EntityKeyIsKey(id);
    KeyIsNotEmpty(id);
    R.RemoveOutcome(cfg, rt, EntityKey(id));
    R.RemoveTopics(cfg, rt, EntityKey(id));
    if EntityKey(id) in rt.kinds {
      R.RemoveClearsRegistered(cfg, rt, EntityKey(id));
    }
  }

  /** With distinct keys the removal of one switch leaves the others shown, with any outcome. */
  lemma RemoveKeepsShown(cfg: R.Config, h: HandlerState, id: ReminderId, ids: set<ReminderId>)
    requires Sound(h, ids) && SwitchesShown(h, ids) && id in ids
    ensures var h' := h.(rt := R.Remove(cfg, h.rt, EntityKey(id)).0, switches := h.switches - {id});
            && Sound(h', ids) && SwitchesShown(h', ids)
            && (h.rt.broker.script == [] ==> h'.rt.broker.script == [])
            && (h.rt.broker.script == [] && OnlySwitches(cfg, h, ids) ==> OnlySwitches(cfg, h', ids))
            && (Calm(cfg, h.rt) ==> Calm(cfg, h'.rt))
            && (forall x, owner :: x in ids && x != id && KnowsOwner(h, x, owner) ==> KnowsOwner(h', x, owner))
            && (forall x :: x in ids && x != id ==> (EntityKey(x) in h'.rt.entities <==> EntityKey(x) in h.rt.entities))
            && (EntityKey(id) in h.rt.entities ==> (EntityKey(id) in h'.rt.entities <==> !R.TwoAcked(h.rt.broker)))
  {
    hide EntityKey, R.Remove, R.Inv, Calm, R.TwoAcked, OnlyTracesOf;
    RemoveEffect(cfg, h.rt, id);
    if h.rt.broker.script == [] && OnlySwitches(cfg, h, ids) {
      assert id in h.switches ==> Shown(h, id);
      RemoveTraces(cfg, h.rt, id, ids, h.switches.Keys);
      assert h.switches.Keys - {id} == (h.switches - {id}).Keys;
    }
  }

  // ---- syncEntities ----

  /** The first loop: exactly the switches of stored reminders stay in the map, whatever the removals come to. */
  lemma {:induction false} SyncGoneKeeps(cfg: R.Config, h: HandlerState, gone: seq<ReminderId>, ids: set<ReminderId>)
    requires Sound(h, ids) && SwitchesShown(h, ids) && forall id :: id in gone ==> id in ids
    ensures var h' := SyncGone(cfg, h, gone);
            && Sound(h', ids) && SwitchesShown(h', ids) && h'.world == h.world
            && (forall id :: id in h'.switches <==> id in h.switches && (id in gone ==> id in h.world.rows))
            && (forall id :: id in h'.switches ==> h'.switches[id] == h.switches[id])
            && (h.rt.broker.script == [] ==> h'.rt.broker.script == [])
            && (h.rt.broker.script == [] && OnlySwitches(cfg, h, ids) ==> OnlySwitches(cfg, h', ids))
            && (Calm(cfg, h.rt) ==> Calm(cfg, h'.rt))
            && (forall x, owner :: x in ids && (x in gone ==> x in h.world.rows) && KnowsOwner(h, x, owner) ==>
                                     KnowsOwner(h', x, owner))
            && (forall x :: x in ids && (x in gone ==> x in h.world.rows) ==>
                              (EntityKey(x) in h'.rt.entities <==> EntityKey(x) in h.rt.entities))
    decreases |gone|
  {
    hide Sound, SwitchesShown, OnlySwitches, Calm, EntityKey, R.Remove, KnowsOwner;
    if gone != [] {
      assert forall id :: id in gone <==> id == gone[0] || id in gone[1..];
      if gone[0] in h.world.rows {
        SyncGoneKeeps(cfg, h, gone[1..], ids);
      } else {
        RemoveKeepsShown(cfg, h, gone[0], ids);
        var rt := R.Remove(cfg, h.rt, EntityKey(gone[0])).0;
        SyncGoneKeeps(cfg, h.(rt := rt, switches := h.switches - {gone[0]}), gone[1..], ids);
      }
    }
  }

  /** Only the switch of r may be new or other, and if there is one it is up to date. */
  ghost predicate AfterOne(h: HandlerState, h': HandlerState, r: Reminder) {
    && h'.world == h.world
    && (forall id :: id != r.id ==> (id in h'.switches <==> id in h.switches))
    && (forall id :: id != r.id && id in h.switches ==> h'.switches[id] == h.switches[id])
    && (r.id in h.switches ==> r.id in h'.switches)
    && (r.id in h'.switches ==> h'.switches[r.id].isOff == EntityIsOff(r) && (r.id in h.switches || Declarable(r)))
  }

  lemma SyncOneKeeps(cfg: R.Config, h: HandlerState, r: Reminder, ids: set<ReminderId>)
    requires Sound(h, ids) && SwitchesShown(h, ids) && r.id in ids
    ensures var h' := SyncOne(cfg, h, r);
            && Sound(h', ids) && SwitchesShown(h', ids) && h'.world == h.world
            && AfterOne(h, h', r)
            && (h.rt.broker.script == [] ==> h'.rt.broker.script == [] && (Declarable(r) ==> r.id in h'.switches))
            && (Calm(cfg, h.rt) ==> Calm(cfg, h'.rt))
            && (forall id, owner :: id in ids && (id in h.switches || id != r.id) && KnowsOwner(h, id, owner) ==>
                                      KnowsOwner(h', id, owner))
            && (r.id !in h.switches && r.id in h'.switches ==> KnowsOwner(h', r.id, r.meta.owner))
  {
    hide EntityKey, Declarable, DeclareEntity, EntityIsOff, Calm, R.Inv, Shown;
    if r.id in h.switches {
      UpdateKeepsShown(cfg, h, r, ids);
    } else {
      DeclareKeepsShown(cfg, h, r, ids);
      DeclareEffect(cfg, h, r);
      if Calm(cfg, h.rt) {
        DeclareKeepsCalm(cfg, h, r);
      }
    }
  }

  // ---- What a sync leaves alone ----

  lemma DeclareSpares(cfg: R.Config, h: HandlerState, r: Reminder, key: string)
    requires R.Inv(h.rt) && (EntityKey(r.id) in h.rt.kinds ==> h.rt.kinds[EntityKey(r.id)] == Switch)
    requires key != EntityKey(r.id)
    ensures SameKey(cfg, h.rt, DeclareEntity(cfg, h, r).0.rt, key)
  {
    hide EntityKey, Declarable, DeclareEntity, EntityIsOff, R.Inv, R.Held, R.StateOf, R.Discovery;
    DeclareEffect(cfg, h, r);
    DeclareEntityTopics(cfg, h, r);
  }

  lemma SyncOneSpares(cfg: R.Config, h: HandlerState, r: Reminder, ids: set<ReminderId>, id: ReminderId)
    requires Sound(h, ids) && SwitchesShown(h, ids) && r.id in ids && id in ids && r.id != id
    ensures SameKey(cfg, h.rt, SyncOne(cfg, h, r).rt, EntityKey(id))
  {
    hide EntityKey, DeclareEntity, EntityIsOff, R.Inv, R.Publish, R.Held, R.StateOf, R.Discovery;
    if r.id in h.switches {
      assert Shown(h, r.id);
      SetStateTopics(cfg, h.rt, EntityKey(r.id), R.BoolPayload(!EntityIsOff(r)));
    } else {
      DeclareSpares(cfg, h, r, EntityKey(id));
    }
  }

  lemma {:induction false} SyncGoneSpares(cfg: R.Config, h: HandlerState, gone: seq<ReminderId>, ids: set<ReminderId>,
                                          id: ReminderId)
    requires R.Inv(h.rt) && KeysDiffer(ids) && id in ids && id !in gone && forall x :: x in gone ==> x in ids
    ensures SameKey(cfg, h.rt, SyncGone(cfg, h, gone).rt, EntityKey(id))
    decreases |gone|
  {
    hide R.Inv, SameKey, EntityKey, R.Remove, TrimSpace;
    if gone == [] {
      SameAsItself(cfg, h.rt, EntityKey(id));
    } else {
      assert gone[0] in gone;
      if gone[0] in h.world.rows {
        SyncGoneSpares(cfg, h, gone[1..], ids, id);
      } else {
        var rt := R.Remove(cfg, h.rt, EntityKey(gone[0])).0;
        var h1 := h.(rt := rt, switches := h.switches - {gone[0]});
        EntityKeyIsKey(gone[0]);
        R.RemoveKeeps(cfg, h.rt, EntityKey(gone[0]));
        RemoveSparesOthers(cfg, h.rt, EntityKey(gone[0]), EntityKey(id));
        SyncGoneSpares(cfg, h1, gone[1..], ids, id);
        SameKeyChains(cfg, h.rt, rt, SyncGone(cfg, h1, gone[1..]).rt, EntityKey(id));
      }
    }
  }
}
