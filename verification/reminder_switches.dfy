/** The switches of the handler after a sync: with and without failing calls (handler.go, syncEntities). */
module ReminderSwitches {
  import opened Options
  import opened Outcomes
  import opened Reminders
  import W = ReminderStore
  import opened Topics
  import R = EntityRuntime
  import opened EntityReconnect
  import opened ReminderSync

  /** The stored reminders that can have a switch. */
  function DeclarableIds(rows: map<ReminderId, Reminder>): set<ReminderId> {
    set id | id in rows && Declarable(rows[id])
  }

  /** Every switch shows what its stored reminder calls for. */
  ghost predicate UpToDate(h: HandlerState) {
    forall id :: id in h.switches ==>
                   id in h.world.rows && h.switches[id].isOff == EntityIsOff(h.world.rows[id])
  }

  // ---- A whole sync, whatever fails ----

  /** No switch is lost, new ones are of these reminders, and these are all up to date. */
  ghost predicate AfterRows(h: HandlerState, h': HandlerState, rems: seq<Reminder>) {
    && h'.world == h.world
    && (forall id :: id in h.switches ==> id in h'.switches)
    && (forall id :: id in h'.switches && id !in h.switches ==>
                       id in h.world.rows && h.world.rows[id] in rems && Declarable(h.world.rows[id]))
    && (forall id :: id in h'.switches && id in h.world.rows && h.world.rows[id] in rems ==>
                       h'.switches[id].isOff == EntityIsOff(h.world.rows[id]))
    && (forall id :: id in h.switches && !(id in h.world.rows && h.world.rows[id] in rems) ==>
                       h'.switches[id] == h.switches[id])
  }

  lemma AfterAllRows(h: HandlerState, h': HandlerState, rems: seq<Reminder>)
    requires AfterRows(h, h', rems) && (forall id :: id in h.world.rows ==> h.world.rows[id] in rems)
    requires h.switches.Keys <= h.world.rows.Keys
    ensures UpToDate(h') && h.switches.Keys <= h'.switches.Keys <= h.switches.Keys + DeclarableIds(h.world.rows)
  {
    forall id | id in h.switches ensures id in h.world.rows {
      assert id in h.switches.Keys;
    }
    hide EntityIsOff, Declarable;
  }

  lemma AllAreDeclared(h: HandlerState, h': HandlerState, rems: seq<Reminder>)
    requires forall id :: id in h.world.rows ==> h.world.rows[id] in rems && h.world.rows[id].id == id
    requires forall r :: r in rems && Declarable(r) ==> r.id in h'.switches
    ensures DeclarableIds(h.world.rows) <= h'.switches.Keys
  {
    hide Declarable;
  }

  /** The second loop, over any part of the stored reminders. */
  lemma {:induction false} SyncRowsKeeps(cfg: R.Config, h: HandlerState, rems: seq<Reminder>, ids: set<ReminderId>)
    requires Sound(h, ids) && SwitchesShown(h, ids) && GoodRows(h.world.rows, ids)
    requires forall r :: r in rems ==> r.id in h.world.rows && h.world.rows[r.id] == r
    ensures var h' := SyncRows(cfg, h, rems);
            && Sound(h', ids) && SwitchesShown(h', ids) && h'.world == h.world
            && AfterRows(h, h', rems)
            && (h.rt.broker.script == [] ==> h'.rt.broker.script == [])
            && (h.rt.broker.script == [] ==> forall r :: r in rems && Declarable(r) ==> r.id in h'.switches)
            && (Calm(cfg, h.rt) ==> Calm(cfg, h'.rt))
            && (OwnersKnown(h) ==> OwnersKnown(h'))
    decreases |rems|
  {
    hide Sound, SwitchesShown, OwnersKnown, Calm, EntityKey, Declarable, SyncOne, AfterOne, AfterRows,
         KnowsOwner;
    if rems == [] {
      AfterNoRows(h);
    } else {
      var r, rest := rems[0], rems[1..];
      assert r in rems && forall x :: x in rems <==> x == r || x in rest;
      SyncOneKeeps(cfg, h, r, ids);
      OwnersStayKnown(cfg, h, r, ids);
      SyncRowsKeeps(cfg, SyncOne(cfg, h, r), rest, ids);
      AfterMoreRows(h, SyncOne(cfg, h, r), SyncRows(cfg, h, rems), rems);
    }
  }

  lemma AfterNoRows(h: HandlerState)
    ensures AfterRows(h, h, [])
  {
  }

  lemma AfterMoreRows(h: HandlerState, h1: HandlerState, h': HandlerState, rems: seq<Reminder>)
    requires rems != [] && AfterOne(h, h1, rems[0]) && AfterRows(h1, h', rems[1..])
    requires forall r :: r in rems ==> r.id in h.world.rows && h.world.rows[r.id] == r
    requires forall id :: id in h.world.rows ==> h.world.rows[id].id == id
    ensures AfterRows(h, h', rems)
    ensures Declarable(rems[0]) && rems[0].id in h1.switches ==> rems[0].id in h'.switches
  {
    hide EntityIsOff, Declarable;
    assert rems[0] in rems && forall x :: x in rems <==> x == rems[0] || x in rems[1..];
  }

  lemma OwnersStayKnown(cfg: R.Config, h: HandlerState, r: Reminder, ids: set<ReminderId>)
    requires Sound(h, ids) && SwitchesShown(h, ids) && r.id in ids && GoodRows(h.world.rows, ids)
    requires r.id in h.world.rows && h.world.rows[r.id] == r
    ensures OwnersKnown(h) ==> OwnersKnown(SyncOne(cfg, h, r))
  {
    hide Sound, SwitchesShown, SyncOne, KnowsOwner, Declarable, EntityIsOff, Calm;
    SyncOneKeeps(cfg, h, r, ids);
  }

  lemma SyncOneRaises(cfg: R.Config, h: HandlerState, r: Reminder, ids: set<ReminderId>)
    requires Sound(h, ids) && SwitchesShown(h, ids) && r.id in ids && h.rt.broker.script == []
    ensures Raised(cfg, h, SyncOne(cfg, h, r), ids)
  {
    hide EntityKey, Declarable, DeclareEntity, EntityIsOff, Calm, R.Inv, R.SetState, R.Held, R.StateOf, R.Discovery;
    if r.id in h.switches {
      assert Shown(h, r.id);
      UpdateKeepsShown(cfg, h, r, ids);
      SetStateTopics(cfg, h.rt, EntityKey(r.id), R.BoolPayload(!EntityIsOff(r)));
    } else {
      DeclareRaises(cfg, h, r, ids);
    }
  }

  /** Without failures the second loop leaves traces of switches only. */
  lemma {:induction false} SyncRowsRaise(cfg: R.Config, h: HandlerState, rems: seq<Reminder>, ids: set<ReminderId>)
    requires Sound(h, ids) && SwitchesShown(h, ids) && h.rt.broker.script == [] && forall r :: r in rems ==> r.id in ids
    ensures Raised(cfg, h, SyncRows(cfg, h, rems), ids)
    decreases |rems|
  {
    hide Sound, SwitchesShown, Raised, SyncOne, AfterOne, Declarable, Calm, EntityKey, KnowsOwner;
    if rems == [] {
      NothingRaised(cfg, h, ids);
    } else {
      var h1 := SyncOne(cfg, h, rems[0]);
      assert rems[0] in rems;
      SyncOneKeeps(cfg, h, rems[0], ids);
      SyncOneRaises(cfg, h, rems[0], ids);
      SyncRowsRaise(cfg, h1, rems[1..], ids);
      RaisedChains(cfg, h, h1, SyncRows(cfg, h, rems), ids);
    }
  }

  lemma NothingRaised(cfg: R.Config, h: HandlerState, ids: set<ReminderId>)
    ensures Raised(cfg, h, h, ids)
  {
  }

  lemma RaisedKeepsOnlySwitches(cfg: R.Config, h: HandlerState, h': HandlerState, ids: set<ReminderId>)
    requires Raised(cfg, h, h', ids) && OnlySwitches(cfg, h, ids)
    ensures OnlySwitches(cfg, h', ids)
  {
    RaisedTraces(cfg, h, h', ids, h'.switches.Keys);
    hide EntityKey, R.Held, R.StateOf, R.Discovery;
  }

  lemma ListedRows(rows: map<ReminderId, Reminder>, listed: seq<ReminderId>, ids: set<ReminderId>)
    requires GoodRows(rows, ids) && R.IsListing(listed, rows.Keys) && forall id :: id in listed ==> id in rows
    ensures forall r :: r in W.RowsOf(rows, listed) ==> r.id in rows && rows[r.id] == r
    ensures forall id :: id in rows ==> rows[id] in W.RowsOf(rows, listed) && rows[id].id == id && id in ids
  {
    var rems := W.RowsOf(rows, listed);
    forall r | r in rems ensures r.id in rows && rows[r.id] == r {
      var i :| 0 <= i < |rems| && rems[i] == r;
      assert listed[i] in listed;
    }
    forall id | id in rows ensures rows[id] in rems {
      assert id in listed;
      var i :| 0 <= i < |listed| && listed[i] == id;
      assert rems[i] == rows[id];
    }
  }

  /** The first loop over the whole switch map. */
  lemma FirstLoop(cfg: R.Config, h: HandlerState, gone: seq<ReminderId>, ids: set<ReminderId>)
    requires Sound(h, ids) && SwitchesShown(h, ids) && R.IsListing(gone, h.switches.Keys)
    ensures var h' := SyncGone(cfg, h, gone);
            && Sound(h', ids) && SwitchesShown(h', ids) && h'.world == h.world
            && h'.switches.Keys == h.switches.Keys * h.world.rows.Keys
            && (OwnersKnown(h) ==> OwnersKnown(h'))
            && (h.rt.broker.script == [] ==> h'.rt.broker.script == [])
            && (h.rt.broker.script == [] && OnlySwitches(cfg, h, ids) ==> OnlySwitches(cfg, h', ids))
            && (Calm(cfg, h.rt) ==> Calm(cfg, h'.rt))
  {
    forall id | id in gone ensures id in ids && id in h.switches {
      assert id in h.switches.Keys;
    }
    forall id | id in h.switches ensures id in gone && id in ids {
      assert id in h.switches.Keys;
    }
    hide Sound, OnlySwitches, Calm, EntityKey, SyncGone, KnowsOwner, Shown, R.IsListing, SwitchesShown;
    SyncGoneKeeps(cfg, h, gone, ids);
  }

  /** The second loop over the whole store. */
  lemma SecondLoop(cfg: R.Config, h: HandlerState, listed: seq<ReminderId>, ids: set<ReminderId>)
    requires Sound(h, ids) && SwitchesShown(h, ids) && GoodRows(h.world.rows, ids) && h.switches.Keys <= h.world.rows.Keys
    requires R.IsListing(listed, h.world.rows.Keys) && forall id :: id in listed ==> id in h.world.rows
    ensures var h' := SyncRows(cfg, h, W.RowsOf(h.world.rows, listed));
            && Sound(h', ids) && SwitchesShown(h', ids) && UpToDate(h') && h'.world == h.world
            && h.switches.Keys <= h'.switches.Keys <= h.switches.Keys + DeclarableIds(h.world.rows)
            && (OwnersKnown(h) ==> OwnersKnown(h'))
            && (h.rt.broker.script == [] ==> h'.rt.broker.script == [] && DeclarableIds(h.world.rows) <= h'.switches.Keys)
            && (h.rt.broker.script == [] ==> Raised(cfg, h, h', ids))
            && (Calm(cfg, h.rt) ==> Calm(cfg, h'.rt))
  {
    hide Sound, Raised, Calm, EntityKey, Declarable, SyncRows, OwnersKnown, SwitchesShown, W.RowsOf, GoodRows,
         R.IsListing, AfterRows, UpToDate, DeclarableIds;
    var rems := W.RowsOf(h.world.rows, listed);
    ListedRows(h.world.rows, listed, ids);
    SyncRowsKeeps(cfg, h, rems, ids);
    AfterAllRows(h, SyncRows(cfg, h, rems), rems);
    if h.rt.broker.script == [] {
      AllAreDeclared(h, SyncRows(cfg, h, rems), rems);
      SyncRowsRaise(cfg, h, rems, ids);
    }
  }

  /** The two loops over the whole switch map and the whole store. */
  lemma SyncBothLoops(cfg: R.Config, h: HandlerState, gone: seq<ReminderId>, listed: seq<ReminderId>,
                      ids: set<ReminderId>)
    requires Sound(h, ids) && SwitchesShown(h, ids) && GoodRows(h.world.rows, ids)
    requires R.IsListing(gone, h.switches.Keys) && R.IsListing(listed, h.world.rows.Keys)
    requires forall id :: id in listed ==> id in h.world.rows
    ensures var h' := SyncRows(cfg, SyncGone(cfg, h, gone), W.RowsOf(h.world.rows, listed));
            && Sound(h', ids) && SwitchesShown(h', ids) && UpToDate(h') && h'.world == h.world
            && h.switches.Keys * h.world.rows.Keys <= h'.switches.Keys
            && h'.switches.Keys <= h.switches.Keys * h.world.rows.Keys + DeclarableIds(h.world.rows)
            && (OwnersKnown(h) ==> OwnersKnown(h'))
            && (h.rt.broker.script == [] ==> h'.rt.broker.script == [] && DeclarableIds(h.world.rows) <= h'.switches.Keys)
            && (h.rt.broker.script == [] && OnlySwitches(cfg, h, ids) ==> OnlySwitches(cfg, h', ids))
            && (Calm(cfg, h.rt) ==> Calm(cfg, h'.rt))
  {
    hide *;
    FirstLoop(cfg, h, gone, ids);
    var h1 := SyncGone(cfg, h, gone);
    SecondLoop(cfg, h1, listed, ids);
    if h.rt.broker.script == [] && OnlySwitches(cfg, h, ids) {
      RaisedKeepsOnlySwitches(cfg, h1, SyncRows(cfg, h1, W.RowsOf(h.world.rows, listed)), ids);
    }
  }

  lemma SyncIsTwoLoops(cfg: R.Config, h: HandlerState, gone: seq<ReminderId>, listed: seq<ReminderId>)
    requires h.world.script == [] && forall id :: id in listed ==> id in h.world.rows
    ensures Sync(cfg, h, gone, listed) == SyncRows(cfg, SyncGone(cfg, h, gone), W.RowsOf(h.world.rows, listed))
  {
    hide SyncRows, SyncGone;
    assert h.world.Called() == h.world;
  }

  /** Whatever calls fail, syncing keeps every remaining switch shown, and its owner known. */
  lemma SyncKeepsShown(cfg: R.Config, h: HandlerState, gone: seq<ReminderId>, listed: seq<ReminderId>,
                       ids: set<ReminderId>)
    requires Sound(h, ids) && SwitchesShown(h, ids) && GoodRows(h.world.rows, ids)
    requires R.IsListing(gone, h.switches.Keys) && R.IsListing(listed, h.world.rows.Keys)
    requires forall id :: id in listed ==> id in h.world.rows
    ensures var h' := Sync(cfg, h, gone, listed);
            && Sound(h', ids) && SwitchesShown(h', ids) && h'.world.rows == h.world.rows
            && (OwnersKnown(h) ==> OwnersKnown(h'))
  {
    var h1 := h.(world := h.world.Called());
    InWorld(h, h.world.Called(), ids);
    hide Calm, SyncGone, SyncRows, W.RowsOf, GoodRows, R.IsListing, Sound, SwitchesShown, OwnersKnown,
         UpToDate, DeclarableIds;
    if !h.world.NextFails() {
      SyncBothLoops(cfg, h1, gone, listed, ids);
    }
  }

  // ---- What a sync leaves alone ----

  lemma {:induction false} SyncRowsSpares(cfg: R.Config, h: HandlerState, rems: seq<Reminder>, ids: set<ReminderId>,
                                          id: ReminderId)
    requires Sound(h, ids) && SwitchesShown(h, ids) && id in ids
    requires forall r :: r in rems ==> r.id in ids && r.id != id
    ensures SameKey(cfg, h.rt, SyncRows(cfg, h, rems).rt, EntityKey(id))
    decreases |rems|
  {
    hide Sound, SwitchesShown, SameKey, EntityKey, SyncOne, AfterOne, Declarable, Calm, KnowsOwner;
    if rems == [] {
      SameAsItself(cfg, h.rt, EntityKey(id));
    } else {
      assert rems[0] in rems;
      var h1 := SyncOne(cfg, h, rems[0]);
      SyncOneKeeps(cfg, h, rems[0], ids);
      SyncOneSpares(cfg, h, rems[0], ids, id);
      SyncRowsSpares(cfg, h1, rems[1..], ids, id);
      SameKeyChains(cfg, h.rt, h1.rt, SyncRows(cfg, h, rems).rt, EntityKey(id));
    }
  }

  /** A sync does not touch anything of an id that is neither stored nor in the switch map. */
  lemma SyncSpares(cfg: R.Config, h: HandlerState, gone: seq<ReminderId>, listed: seq<ReminderId>, ids: set<ReminderId>,
                   id: ReminderId)
    requires Sound(h, ids) && SwitchesShown(h, ids) && GoodRows(h.world.rows, ids)
    requires R.IsListing(gone, h.switches.Keys) && R.IsListing(listed, h.world.rows.Keys)
    requires (forall x :: x in listed ==> x in h.world.rows) && id in ids && id !in h.switches && id !in h.world.rows
    ensures SameKey(cfg, h.rt, Sync(cfg, h, gone, listed).rt, EntityKey(id)) && id !in Sync(cfg, h, gone, listed).switches
  {
    SameAsItself(cfg, h.rt, EntityKey(id));
    assert forall x :: x in gone <==> x in h.switches.Keys;
    var h1 := h.(world := h.world.Called());
    InWorld(h, h.world.Called(), ids);
    ListedRows(h.world.rows, listed, ids);
    hide SwitchesShown, OwnersKnown, R.Inv, KeysDiffer, OwnKeys, SyncGone, SyncRows, W.RowsOf, R.IsListing, SameKey,
         EntityKey, Calm, UpToDate, DeclarableIds;
    if !h.world.NextFails() {
      SyncBothLoops(cfg, h1, gone, listed, ids);
      DeclarableIsStored(h.world.rows);
      assert id !in Sync(cfg, h, gone, listed).switches.Keys;
      SyncGoneSpares(cfg, h1, gone, ids, id);
      SyncGoneKeeps(cfg, h1, gone, ids);
      var h2 := SyncGone(cfg, h1, gone);
      SyncRowsSpares(cfg, h2, W.RowsOf(h.world.rows, listed), ids, id);
      SameKeyChains(cfg, h.rt, h2.rt, Sync(cfg, h, gone, listed).rt, EntityKey(id));
    }
  }

  /** Calls to the store do not concern the switches. */
  lemma InWorld(h: HandlerState, world: W.World, ids: set<ReminderId>)
    requires Sound(h, ids) && SwitchesShown(h, ids)
    ensures Sound(h.(world := world), ids) && SwitchesShown(h.(world := world), ids)
    ensures OwnersKnown(h) && world.rows == h.world.rows ==> OwnersKnown(h.(world := world))
  {
    hide EntityKey, R.Inv, KeysDiffer, OwnKeys;
  }

  // ---- Without failing calls ----

  /** The switches are exactly the stored reminders that can have one, each shown on the broker as it is remembered. */
  ghost predicate Synced(cfg: R.Config, h: HandlerState, ids: set<ReminderId>) {
    && Sound(h, ids) && Calm(cfg, h.rt) && h.world.script == []
    && GoodRows(h.world.rows, ids) && SwitchesShown(h, ids) && OwnersKnown(h) && OnlySwitches(cfg, h, ids)
    && h.switches.Keys == DeclarableIds(h.world.rows) && UpToDate(h)
  }

  /** No switch is known whose stored reminder could not have one now. */
  ghost predicate NoStrays(h: HandlerState) {
    h.switches.Keys * h.world.rows.Keys <= DeclarableIds(h.world.rows)
  }

  /**
   * Whatever has happened to the store since, syncing makes the switches exactly the stored reminders that can have
   * one again; unless, exactly, one of them is stored that no longer can.
   */
  lemma SyncEstablishesIff(cfg: R.Config, h: HandlerState, gone: seq<ReminderId>, listed: seq<ReminderId>,
                           ids: set<ReminderId>)
    requires Sound(h, ids) && Calm(cfg, h.rt) && h.world.script == [] && GoodRows(h.world.rows, ids)
    requires SwitchesShown(h, ids) && OwnersKnown(h) && OnlySwitches(cfg, h, ids)
    requires R.IsListing(gone, h.switches.Keys) && R.IsListing(listed, h.world.rows.Keys)
    requires forall id :: id in listed ==> id in h.world.rows
    ensures Synced(cfg, Sync(cfg, h, gone, listed), ids) <==> NoStrays(h)
    ensures Sync(cfg, h, gone, listed).world == h.world
  {
    hide Sound, OnlySwitches, EntityKey, EntityIsOff, DeclarableIds, SyncGone, SyncRows, OwnersKnown, SwitchesShown,
         W.RowsOf, GoodRows, R.IsListing, UpToDate, Sync, R.Mirrors;
    SyncIsTwoLoops(cfg, h, gone, listed);
    SyncBothLoops(cfg, h, gone, listed, ids);
  }

  // ---- A second sync ----

  /** The switches agree with the store, so that there is nothing to do. */
  ghost predicate NothingToDo(h: HandlerState) {
    && UpToDate(h) && DeclarableIds(h.world.rows) <= h.switches.Keys
    && forall id :: id in h.world.rows ==> h.world.rows[id].id == id
  }

  lemma {:induction false} NothingGone(cfg: R.Config, h: HandlerState, gone: seq<ReminderId>)
    requires UpToDate(h) && forall id :: id in gone ==> id in h.switches
    ensures SyncGone(cfg, h, gone) == h
    decreases |gone|
  {
    hide EntityIsOff;
    if gone != [] {
      assert gone[0] in h.switches;
      NothingGone(cfg, h, gone[1..]);
    }
  }

  lemma {:induction false} NothingNew(cfg: R.Config, h: HandlerState, rems: seq<Reminder>)
    requires NothingToDo(h) && forall r :: r in rems ==> r.id in h.world.rows && h.world.rows[r.id] == r
    ensures SyncRows(cfg, h, rems) == h
    decreases |rems|
  {
    hide EntityIsOff, DeclareEntity, Declarable;
    if rems != [] {
      var r := rems[0];
      assert r in rems;
      if r.id !in h.switches {
        assert r.id !in DeclarableIds(h.world.rows);
        UndeclarableIsLeft(cfg, h, r);
      }
      assert SyncOne(cfg, h, r) == h;
      NothingNew(cfg, h, rems[1..]);
    }
  }

  /**
   * With nothing to do a sync makes no runtime call: whatever the outcomes of publishes would be, none of them is used
   * up and nothing changes.
   */
  lemma IdleSync(cfg: R.Config, h: HandlerState, gone: seq<ReminderId>, listed: seq<ReminderId>, ids: set<ReminderId>)
    requires NothingToDo(h) && h.world.script == [] && GoodRows(h.world.rows, ids)
    requires R.IsListing(gone, h.switches.Keys) && R.IsListing(listed, h.world.rows.Keys)
    requires forall id :: id in listed ==> id in h.world.rows
    ensures Sync(cfg, h, gone, listed) == h
  {
    forall id | id in gone ensures id in h.switches {
      assert id in h.switches.Keys;
    }
    hide EntityKey, EntityIsOff, DeclarableIds, UpToDate, SyncGone, SyncRows, GoodRows, R.IsListing, W.RowsOf;
    SyncIsTwoLoops(cfg, h, gone, listed);
    NothingGone(cfg, h, gone);
    ListedRows(h.world.rows, listed, ids);
    NothingNew(cfg, h, W.RowsOf(h.world.rows, listed));
  }

  // ---- A failing removal ----

  lemma {:induction false} SyncGoneSplits(cfg: R.Config, h: HandlerState, before: seq<ReminderId>, after: seq<ReminderId>)
    ensures SyncGone(cfg, h, before + after) == SyncGone(cfg, SyncGone(cfg, h, before), after)
    decreases |before|
  {
    hide R.Remove, EntityKey;
    if before == [] {
      assert before + after == after;
    } else {
      assert (before + after)[1..] == before[1..] + after;
      if before[0] in h.world.rows {
        SyncGoneSplits(cfg, h, before[1..], after);
      } else {
        var rt := R.Remove(cfg, h.rt, EntityKey(before[0])).0;
        SyncGoneSplits(cfg, h.(rt := rt, switches := h.switches - {before[0]}), before[1..], after);
      }
    }
  }

  lemma SyncGoneOne(cfg: R.Config, h: HandlerState, id: ReminderId)
    requires id !in h.world.rows
    ensures SyncGone(cfg, h, [id])
            == h.(rt := R.Remove(cfg, h.rt, EntityKey(id)).0, switches := h.switches - {id})
  {
    hide R.Remove, EntityKey;
    assert [id][1..] == [];
  }

  /**
   * When the reminder of a switch is gone, the switch leaves the map in any case; its entity stays declared exactly if
   * the two publishes that clear its topics, when its turn comes, are not both acknowledged.
   */
  lemma RemovalStaysIff(cfg: R.Config, h: HandlerState, before: seq<ReminderId>, id: ReminderId, after: seq<ReminderId>,
                        ids: set<ReminderId>)
    requires Sound(h, ids) && SwitchesShown(h, ids) && R.IsListing(before + [id] + after, h.switches.Keys)
    requires id !in h.world.rows
    ensures var h' := SyncGone(cfg, h, before + [id] + after);
            && id !in h'.switches
            && (EntityKey(id) in h'.rt.entities <==> !R.TwoAcked(SyncGone(cfg, h, before).rt.broker))
  {
    var gone := before + [id] + after;
    ItsTurn(gone, before, id, after);
    forall x | x in gone ensures x in ids && x in h.switches {
      assert x in h.switches.Keys;
    }
    assert id in gone && Shown(h, id);
    hide Sound, Calm, EntityKey, SyncGone, R.Remove, KnowsOwner, R.IsListing, R.TwoAcked;
    var h1 := SyncGone(cfg, h, before);
    var h2 := SyncGone(cfg, h1, [id]);
    SyncGoneSplits(cfg, h, before + [id], after);
    SyncGoneSplits(cfg, h, before, [id]);
    SyncGoneKeeps(cfg, h, before, ids);
    SyncGoneOne(cfg, h1, id);
    RemoveKeepsShown(cfg, h1, id, ids);
    SyncGoneKeeps(cfg, h2, after, ids);
  }

  lemma ItsTurn(gone: seq<ReminderId>, before: seq<ReminderId>, id: ReminderId, after: seq<ReminderId>)
    requires gone == before + [id] + after && forall i, j :: 0 <= i < j < |gone| ==> gone[i] != gone[j]
    ensures id !in before && id !in after
    ensures forall x :: x in before || x in after ==> x in gone
  {
    assert gone[|before|] == id;
    forall i | 0 <= i < |before| ensures before[i] != id {
      assert gone[i] == before[i];
    }
    forall i | 0 <= i < |after| ensures after[i] != id && after[i] in gone {
      assert gone[|before| + 1 + i] == after[i];
    }
  }

  /** The state with other outcomes waiting. */
  function WithOutcomes(h: HandlerState, outcomes: seq<Outcome>): HandlerState {
    h.(rt := h.rt.(broker := h.rt.broker.(script := outcomes)))
  }

  /** No later sync makes a runtime call, however its publishes would come out. */
  ghost predicate Settled(cfg: R.Config, h: HandlerState) {
    forall outcomes, gone, listed ::
      R.IsListing(gone, h.switches.Keys) && R.IsListing(listed, h.world.rows.Keys)
      && (forall x :: x in listed ==> x in h.world.rows) ==>
        Sync(cfg, WithOutcomes(h, outcomes), gone, listed) == WithOutcomes(h, outcomes)
  }

  lemma NothingToDoIsSettled(cfg: R.Config, h: HandlerState, ids: set<ReminderId>)
    requires NothingToDo(h) && h.world.script == [] && GoodRows(h.world.rows, ids)
    ensures Settled(cfg, h)
  {
    hide Sync, EntityIsOff, DeclarableIds, R.IsListing;
    forall outcomes, gone, listed | R.IsListing(gone, h.switches.Keys) && R.IsListing(listed, h.world.rows.Keys)
                                    && forall x :: x in listed ==> x in h.world.rows
      ensures Sync(cfg, WithOutcomes(h, outcomes), gone, listed) == WithOutcomes(h, outcomes)
    {
      IdleSync(cfg, WithOutcomes(h, outcomes), gone, listed, ids);
    }
  }

  /** In particular a second sync makes none. */
  lemma SecondSyncIsIdle(cfg: R.Config, h: HandlerState, ids: set<ReminderId>)
    requires Synced(cfg, h, ids)
    ensures Settled(cfg, h)
  {
    hide EntityKey, EntityIsOff, Declarable, R.Mirrors, R.Inv, Settled;
    NothingToDoIsSettled(cfg, h, ids);
  }

  lemma DeclarableIsStored(rows: map<ReminderId, Reminder>)
    ensures DeclarableIds(rows) <= rows.Keys
  {
  }

  // ---- Recovering ----

  /** What the state topic of a reminder's switch holds. */
  function Held(cfg: R.Config, rt: R.State, id: ReminderId): Option<R.Payload> {
    R.Held(rt.broker.retained, R.StateOf(cfg, EntityKey(id)))
  }

  /** OFF while an acknowledgement is pending. */
  function Indicated(r: Reminder): R.Payload {
    if r.policy.requiresAck && r.state.fireCount > 0 then "OFF" else "ON"
  }

  lemma ShownIsHeld(cfg: R.Config, h: HandlerState, rt: R.State, id: ReminderId)
    requires id in h.switches && Shown(h, id) && rt.entities == h.rt.entities && R.Mirrors(cfg, rt)
    ensures Held(cfg, rt, id) == Some(if h.switches[id].isOff then "OFF" else "ON")
  {
    hide EntityKey, R.StateOf, R.Held, R.Discovery;
  }

  /** A reconnect that succeeds puts every switch's state topic right, whatever the broker held. */
  lemma ReconnectShows(cfg: R.Config, h: HandlerState, order: seq<string>, ids: set<ReminderId>)
    requires Sound(h, ids) && SwitchesShown(h, ids) && UpToDate(h)
    requires R.IsListing(order, h.rt.entities.Keys) && forall k :: k in order ==> k in h.rt.entities
    ensures var (rt, ok) := R.HandleReconnect(cfg, h.rt, order);
            && (ok ==> forall id :: id in h.switches ==> Held(cfg, rt, id) == Some(Indicated(h.world.rows[id])))
            && (h.rt.broker.script == [] ==> ok)
  {
    hide EntityKey, Shown, R.IsListing, R.Mirrors, Held, R.HandleReconnect, Refreshed, OnlyTouches;
    ReconnectHeals(cfg, h.rt, order);
    var (rt, ok) := R.HandleReconnect(cfg, h.rt, order);
    if ok {
      forall id | id in h.switches ensures Held(cfg, rt, id) == Some(Indicated(h.world.rows[id])) {
        ShownIsHeld(cfg, h, rt, id);
      }
    }
  }

  /**
   * However many calls have failed so far: after one sync and one reconnect without failures every stored reminder
   * that can have a switch has one, and its state topic shows whether an acknowledgement is pending.
   */
  lemma RecoversAfterFailures(cfg: R.Config, h: HandlerState, gone: seq<ReminderId>, listed: seq<ReminderId>,
                              h': HandlerState, order: seq<string>, ids: set<ReminderId>)
    requires Sound(h, ids) && SwitchesShown(h, ids) && GoodRows(h.world.rows, ids)
    requires h.world.script == [] && h.rt.broker.script == []
    requires R.IsListing(gone, h.switches.Keys) && R.IsListing(listed, h.world.rows.Keys)
    requires (forall id :: id in listed ==> id in h.world.rows) && h' == Sync(cfg, h, gone, listed)
    requires R.IsListing(order, h'.rt.entities.Keys) && forall k :: k in order ==> k in h'.rt.entities
    ensures DeclarableIds(h.world.rows) <= h'.switches.Keys <= h.world.rows.Keys
    ensures var (rt, ok) := R.HandleReconnect(cfg, h'.rt, order);
            ok && forall id :: id in h'.switches ==> Held(cfg, rt, id) == Some(Indicated(h.world.rows[id]))
  {
    hide Calm, EntityIsOff, Declarable, SyncGone, SyncRows, W.RowsOf, GoodRows, R.IsListing, Sound,
         SwitchesShown, OwnersKnown, Sync, DeclarableIds, Held, R.HandleReconnect;
    SyncIsTwoLoops(cfg, h, gone, listed);
    SyncBothLoops(cfg, h, gone, listed, ids);
    DeclarableIsStored(h.world.rows);
    ReconnectShows(cfg, h', order, ids);
  }

  // ---- What Home Assistant is shown ----

  /**
   * When synced, the state topic of a stored reminder that can have a switch holds OFF exactly when the reminder
   * requires an acknowledgement and has fired, and ON otherwise; of any other reminder no topic holds anything.
   */
  lemma RetainedShowsPending(cfg: R.Config, h: HandlerState, ids: set<ReminderId>, id: ReminderId)
    requires Synced(cfg, h, ids) && id in ids
    ensures id in h.switches <==> id in h.world.rows && CanHaveSwitch(h.world.rows[id])
    ensures id in h.switches ==>
              R.Held(h.rt.broker.retained, cfg.appPrefix + "/entities/" + EntityKey(id) + "/state") ==
              Some(if h.world.rows[id].policy.requiresAck && h.world.rows[id].state.fireCount > 0 then "OFF" else "ON")
    ensures id !in h.switches ==> R.Gone(cfg, h.rt, EntityKey(id))
  {
    StateTopicOf(cfg, EntityKey(id));
    if id in h.world.rows {
      DeclarableIff(h.world.rows[id]);
    }
    assert id in h.switches.Keys <==> id in DeclarableIds(h.world.rows);
    hide EntityKey, Declarable, CanHaveSwitch, R.StateOf, R.Held, R.Discovery, IsKey, R.Mirrors;
    if id in h.switches {
      ShownIsHeld(cfg, h, h.rt, id);
    }
  }

  lemma StateTopicOf(cfg: R.Config, key: string)
    ensures R.StateOf(cfg, key) == cfg.appPrefix + "/entities/" + key + "/state"
  {
  }

  /** The command that arrives when a reminder's switch is operated goes to that reminder, in its owner's name. */
  lemma CommandNamesItsReminder(cfg: R.Config, h: HandlerState, ids: set<ReminderId>, id: ReminderId, payload: R.Payload)
    requires Sound(h, ids) && SwitchesShown(h, ids) && OwnersKnown(h)
    requires id in h.switches && id in h.world.rows && "+" !in Levels(cfg.appPrefix)
    ensures var handler := R.Handler(id, h.world.rows[id].meta.owner);
            R.HandleCommand(cfg, h.rt, cfg.appPrefix + "/entities/" + EntityKey(id) + "/set", payload) ==
            if R.SaysOn(payload) then Some((handler, true))
            else if R.SaysOff(payload) then Some((handler, false))
            else None
  {
    CommandTopicOf(cfg, EntityKey(id));
    hide EntityKey, IsKey, TrimSpace, CommandTopic, Levels, Matches, R.HandleCommand, R.SaysOn, R.SaysOff;
    assert Shown(h, id) && KnowsOwner(h, id, h.world.rows[id].meta.owner);
    var topic := CommandTopic(cfg.appPrefix, EntityKey(id));
    KeyHasNoSlash(EntityKey(id));
    FilterPassesCommandTopics(cfg.appPrefix, topic);
    CommandReachesItsSwitch(cfg, h.rt, topic, payload, EntityKey(id));
  }

  lemma KeyHasNoSlash(key: string)
    requires IsKey(key)
    ensures '/' !in key && key != ""
  {
  }

  // ---- Ids whose keys coincide ----

  /** The same letter in another case, or a blank and an underscore. */
  predicate Alike(c: char, d: char) {
    || c == d || (c == ' ' && d == '_') || (c == '_' && d == ' ')
    || ('A' <= c <= 'Z' && d as int == c as int + 32) || ('A' <= d <= 'Z' && c as int == d as int + 32)
  }

  /** Two ids share a key exactly if, white space around them aside, they are alike letter by letter. */
  lemma KeysCoincideIff(a: ReminderId, b: ReminderId)
    ensures EntityKey(a) == EntityKey(b) <==>
            && |TrimSpace(a)| == |TrimSpace(b)|
            && forall i :: 0 <= i < |TrimSpace(a)| ==> Alike(TrimSpace(a)[i], TrimSpace(b)[i])
  {
    hide TrimSpace;
    var x, y := Slug(a), Slug(b);
    if EntityKey(a) == EntityKey(b) {
      CancelPrefix("reminder_", x, y);
      forall i | 0 <= i < |x| ensures Alike(TrimSpace(a)[i], TrimSpace(b)[i]) {
        assert x[i] == y[i];
      }
    }
    if |x| == |y| && forall i :: 0 <= i < |x| ==> Alike(TrimSpace(a)[i], TrimSpace(b)[i]) {
      assert x == y;
    }
  }

  lemma KeysCanCoincide()
    ensures EntityKey("Tea time") == EntityKey("tea_time") == "reminder_tea_time"
  {
    TightIsTrimmed("Tea time");
    TightIsTrimmed("tea_time");
    var a, b := Slug("Tea time"), Slug("tea_time");
    assert |a| == |b| == 8;
    assert a == b == "tea_time";
  }

  /** Ids that are their own slug, such as lower-case identifiers without blanks, never share a key. */
  lemma PlainIdsDiffer(ids: set<ReminderId>)
    requires forall id :: id in ids ==> Slug(id) == id
    ensures KeysDiffer(ids)
  {
    hide Slug;
    forall a, b | a in ids && b in ids && EntityKey(a) == EntityKey(b) ensures a == b {
      CancelPrefix("reminder_", a, b);
    }
  }

  /** When the reminder of one of two switches is gone, the other stays declared exactly if their keys differ. */
  lemma RemovalSparesOther(cfg: R.Config, h: HandlerState, a: ReminderId, b: ReminderId)
    requires R.Inv(h.rt) && h.rt.broker.script == [] && a != b && a !in h.world.rows
    requires a in h.switches && b in h.switches && EntityKey(a) in h.rt.entities && EntityKey(b) in h.rt.entities
    ensures var h' := SyncGone(cfg, h, [a]);
            && b in h'.switches && h'.switches[b] == h.switches[b]
            && (EntityKey(b) in h'.rt.entities <==> EntityKey(a) != EntityKey(b))
  {
    hide EntityKey, R.Inv, R.Remove, TrimSpace;
    EntityKeyIsKey(a);
    KeyIsNotEmpty(a);
    R.RemoveOutcome(cfg, h.rt, EntityKey(a));
    SyncGoneOne(cfg, h, a);
  }

  /** A runtime that has declared nothing, on an empty broker. */
  function NoRuntime(): R.State {
    R.State(map[], map[], map[], R.Broker(map[], []))
  }

  /**
   * What happens when they do not: two reminders with one key are declared and the first is then removed. The
   * second is stored and in the switch map, its entity is gone, and every later sync finds nothing to do.
   */
  lemma CoincidingSwitchIsLost(cfg: R.Config, a: Reminder, b: Reminder) returns (h: HandlerState)
    requires a.id != b.id && EntityKey(a.id) == EntityKey(b.id) && Declarable(a) && Declarable(b)
    ensures var world := W.World(map[b.id := b], [], [], 0);
            var none := HandlerState(world, map[], NoRuntime());
            h == SyncGone(cfg, DeclareEntity(cfg, DeclareEntity(cfg, none, a).0, b).0, [a.id])
    ensures h.world.rows == map[b.id := b] && h.switches.Keys == {b.id} && NothingToDo(h)
    ensures EntityKey(b.id) !in h.rt.entities
  {
    hide EntityKey, DeclareEntity, SyncGone, EntityIsOff, Declarable, R.Inv, R.Remove;
    var world := W.World(map[b.id := b], [], [], 0);
    var none := HandlerState(world, map[], NoRuntime());
    NothingIsInOrder();
    DeclareEffect(cfg, none, a);
    var one := DeclareEntity(cfg, none, a).0;
    DeclareEffect(cfg, one, b);
    var two := DeclareEntity(cfg, one, b).0;
    RemovalSparesOther(cfg, two, a.id, b.id);
    SyncGoneOne(cfg, two, a.id);
    h := SyncGone(cfg, two, [a.id]);
  }

  lemma NothingIsInOrder()
    ensures R.Inv(NoRuntime())
  {
  }
}
