/** Whole runs of the reminder manager: creations, acknowledgements, deletions and ticks with calls that may fail. */
module ReminderRuns {
  import opened Options
  import opened Outcomes
  import opened PriceSlots
  import opened Reminders
  import S = ReminderStore
  import opened ReminderStore
  import opened ReminderTick

  datatype Event =
    | Create(cmd: CreateCommand, at: Time)
    | Ack(id: ReminderId, user: UserId, at: Time)
    | Delete(id: ReminderId)
    | Tick(order: seq<ReminderId>, at: Time)

  /** What can happen next: recurring reminders come with an interval, the database lists the due rows in some order. */
  ghost predicate CanHappen(w: World, e: Event) {
    match e
    case Create(cmd, _) => cmd.HasInterval()
    case Ack(_, _, _) => true
    case Delete(_) => true
    case Tick(order, at) => CanTick(w, order, at)
  }

  ghost function Step(w: World, e: Event): World
    requires CanHappen(w, e)
  {
    match e
    case Create(cmd, at) => S.Create(w, cmd, at).0
    case Ack(id, user, at) => S.Ack(w, id, user, at).0
    case Delete(id) => S.Delete(w, id).0
    case Tick(order, at) => S.Tick(w, order, at).0
  }

  ghost predicate IsRun(w: World, es: seq<Event>)
    decreases |es|
  {
    es == [] || (CanHappen(w, es[0]) && IsRun(Step(w, es[0]), es[1..]))
  }

  ghost function Run(w: World, es: seq<Event>): World
    requires IsRun(w, es)
    decreases |es|
  {
    if es == [] then w else Run(Step(w, es[0]), es[1..])
  }

  function Start(script: seq<Outcome>): World {
    World(map[], [], script, 0)
  }

  // ---- What the log says about one id ----

  /** Notifications since the latest creation. */
  function Since(log: seq<Entry>, id: ReminderId): nat {
    if log == [] then 0
    else
      var e, before := log[|log| - 1], log[..|log| - 1];
      if e.Created? && e.reminder.id == id then 0
      else if e.Sent? && e.id == id then Since(before, id) + 1
      else Since(before, id)
  }

  /** The reminder as it was latest created. */
  function Origin(log: seq<Entry>, id: ReminderId): Option<Reminder> {
    if log == [] then None
    else
      var e, before := log[|log| - 1], log[..|log| - 1];
      if e.Created? && e.reminder.id == id then Some(e.reminder) else Origin(before, id)
  }

  predicate About(e: Entry, id: ReminderId) {
    (e.Created? && e.reminder.id == id) || (e.Sent? && e.id == id)
  }

  lemma LogAppend(log: seq<Entry>, e: Entry, id: ReminderId)
    ensures Since(log + [e], id) == (if e.Created? && e.reminder.id == id then 0
                                     else if e.Sent? && e.id == id then Since(log, id) + 1 else Since(log, id))
    ensures Origin(log + [e], id) == (if e.Created? && e.reminder.id == id then Some(e.reminder) else Origin(log, id))
  {
    assert (log + [e])[..|log|] == log;
  }

  // ---- The invariant ----

  predicate SingleShot(r: Reminder) {
    r.schedule.kind == Once && !r.policy.requiresAck
  }

  predicate QuietEscalation(r: Reminder) {
    r.schedule.kind == Once && r.policy.requiresAck && r.policy.profile == QUIET
  }

  /** The most notifications one creation can lead to when nothing fails. */
  function Budget(r: Reminder): Option<nat> {
    if SingleShot(r) then Some(1) else if QuietEscalation(r) then Some(2) else None
  }

  /**
   * About one id: a stored reminder has no acks and stems from its latest creation; its fire count is at most
   * the notifications since then, which exceed it by at most the failed calls; and whether it is stored or
   * gone, a limited budget is exceeded by at most the failed calls.
   */
  ghost predicate Good(row: Option<Reminder>, log: seq<Entry>, failures: nat, id: ReminderId) {
    && (row.Some? ==>
          && WellStored(row.value, id)
          && Origin(log, id).Some?
          && Origin(log, id).value.policy == row.value.policy
          && Origin(log, id).value.schedule.kind == row.value.schedule.kind
          && row.value.state.fireCount <= Since(log, id) <= row.value.state.fireCount + failures
          && (SingleShot(row.value) ==> row.value.state.fireCount == 0)
          && (QuietEscalation(row.value) ==> row.value.state.fireCount <= 2))
    && (Origin(log, id).Some? && Budget(Origin(log, id).value).Some? ==>
          Since(log, id) <= Budget(Origin(log, id).value).value + failures)
  }

  ghost predicate Inv(w: World) {
    forall id :: Good(RowAt(w.rows, id), w.log, w.failures, id)
  }

  lemma InvRows(w: World)
    requires Inv(w)
    ensures AllWellStored(w.rows)
  {
    forall id | id in w.rows ensures WellStored(w.rows[id], id) {
      assert Good(RowAt(w.rows, id), w.log, w.failures, id);
    }
  }

  lemma GoodWithMoreFailures(row: Option<Reminder>, log: seq<Entry>, failures: nat, failures': nat, id: ReminderId)
    requires Good(row, log, failures, id) && failures <= failures'
    ensures Good(row, log, failures', id)
    ensures Good(None, log, failures', id)
  {
  }

  lemma GoodForOthers(row: Option<Reminder>, log: seq<Entry>, e: Entry, failures: nat, id: ReminderId)
    requires Good(row, log, failures, id) && !About(e, id)
    ensures Good(row, log + [e], failures, id)
  {
    LogAppend(log, e, id);
  }

  // ---- Each event keeps it ----

  lemma CreateKeeps(w: World, cmd: CreateCommand, at: Time)
    requires Inv(w) && cmd.HasInterval()
    ensures Inv(S.Create(w, cmd, at).0)
  {
    var w' := S.Create(w, cmd, at).0;
    if New(cmd, at).Ok? && w.TakesEffect() {
      var r := New(cmd, at).value;
      assert w'.log == w.log + [Created(r)] && w'.failures >= w.failures;
      forall id ensures Good(RowAt(w'.rows, id), w'.log, w'.failures, id) {
        assert Good(RowAt(w.rows, id), w.log, w.failures, id);
        GoodWithMoreFailures(RowAt(w.rows, id), w.log, w.failures, w'.failures, id);
        LogAppend(w.log, Created(r), id);
        if id == r.id {
          CreatedIsWellStored(w, r);
        } else {
          GoodForOthers(RowAt(w.rows, id), w.log, Created(r), w'.failures, id);
        }
      }
    } else {
      SameRowsAndLogKeep(w, w');
    }
  }

  lemma CreatedIsWellStored(w: World, r: Reminder)
    requires w.TakesEffect() && r.acks == [] && r.HasInterval()
    requires r.id in w.rows ==> WellStored(w.rows[r.id], r.id)
    ensures RowAt(S.Save(w, r).0.rows, r.id).Some?
    ensures WellStored(S.Save(w, r).0.rows[r.id], r.id)
    ensures S.Save(w, r).0.rows[r.id].policy == r.policy
    ensures S.Save(w, r).0.rows[r.id].schedule.kind == r.schedule.kind
    ensures S.Save(w, r).0.rows[r.id].state.fireCount == r.state.fireCount
  {
    StoredTwice(r);
    var row := S.Save(w, r).0.rows[r.id];
    if r.id in w.rows {
      assert Stored(w.rows[r.id]).state == w.rows[r.id].state;
      KeepsCreationTime(Stored(r), w.rows[r.id].state.createdAt);
    }
  }

  lemma KeepsCreationTime(r: Reminder, t: Time)
    requires Stored(r) == r && FloorSecond(t) == t && r.acks == []
    ensures Stored(r.(state := r.state.(createdAt := t))) == r.(state := r.state.(createdAt := t))
  {
    assert Stored(r).acks == [] && Stored(r).schedule == r.schedule && Stored(r).state == r.state;
    var r' := r.(state := r.state.(createdAt := t));
    assert Stored(r').acks == [] && Stored(r').schedule == r'.schedule && Stored(r').state == r'.state;
  }

  lemma SameRowsAndLogKeep(w: World, w': World)
    requires Inv(w) && w'.rows == w.rows && w'.log == w.log && w'.failures >= w.failures
    ensures Inv(w')
  {
    forall id ensures Good(RowAt(w'.rows, id), w'.log, w'.failures, id) {
      assert Good(RowAt(w.rows, id), w.log, w.failures, id);
      GoodWithMoreFailures(RowAt(w.rows, id), w.log, w.failures, w'.failures, id);
    }
  }

  lemma RemoveKeeps(w: World, id: ReminderId)
    requires Inv(w)
    ensures Inv(S.Remove(w, id).0)
  {
    var w' := S.Remove(w, id).0;
    forall x ensures Good(RowAt(w'.rows, x), w'.log, w'.failures, x) {
      assert Good(RowAt(w.rows, x), w.log, w.failures, x);
      GoodWithMoreFailures(RowAt(w.rows, x), w.log, w.failures, w'.failures, x);
    }
  }

  lemma AckKeeps(w: World, id: ReminderId, user: UserId, at: Time)
    requires Inv(w)
    ensures Inv(S.Ack(w, id, user, at).0)
  {
    hide Inv;
    var (w', loaded) := GetById(w, id);
    SameRowsAndLogKeep(w, w');
    if loaded.Ok? {
      AckCompletes(loaded.value, user, at);
      RemoveKeeps(w', id);
    }
  }

  lemma TickOneKeeps(w: World, id: ReminderId, now: Time)
    requires Inv(w) && id in w.rows && WellStored(w.rows[id], id)
    ensures Inv(TickOne(w, w.rows[id], now).0)
  {
    var w' := TickOne(w, w.rows[id], now).0;
    TickOneEffect(w, id, now);
    forall x ensures Good(RowAt(w'.rows, x), w'.log, w'.failures, x) {
      assert Good(RowAt(w.rows, x), w.log, w.failures, x);
      assert x != id ==> RowAt(w'.rows, x) == RowAt(w.rows, x);
      GoodAfterTurn(w, w', id, now, x);
    }
  }

  lemma GoodAfterTurn(w: World, w': World, id: ReminderId, now: Time, x: ReminderId)
    requires id in w.rows && WellStored(w.rows[id], id) && Good(RowAt(w.rows, x), w.log, w.failures, x)
    requires x != id ==> RowAt(w'.rows, x) == RowAt(w.rows, x)
    requires w.failures <= w'.failures <= w.failures + 1
    requires || (w'.log == w.log + Telling(w.rows[id], now) && RowAt(w'.rows, id) == NextRow(w.rows[id], now))
             || ((w'.log == w.log || w'.log == w.log + Telling(w.rows[id], now)) && w'.failures == w.failures + 1
                 && w'.rows == w.rows)
    ensures Good(RowAt(w'.rows, x), w'.log, w'.failures, x)
  {
    var r := w.rows[id];
    GoodWithMoreFailures(RowAt(w.rows, x), w.log, w.failures, w'.failures, x);
    if Tells(r, now) {
      LogAppend(w.log, Telling(r, now)[0], x);
      if x == id {
        NextRowIsWellStored(r, id, now);
      } else {
        GoodForOthers(RowAt(w.rows, x), w.log, Telling(r, now)[0], w'.failures, x);
      }
    } else {
      assert w.log + [] == w.log;
    }
  }

  lemma {:induction false} TickListedKeeps(w: World, order: seq<ReminderId>, now: Time)
    requires Inv(w) && Distinct(order) && forall id :: id in order ==> id in w.rows && w.rows[id].HasInterval()
    ensures Inv(TickListed(w, order, now).0)
    decreases |order|
  {
    hide TickOne, Good, NextRow, Telling, Stored;
    if order != [] {
      var id, due := order[0], RowsOf(w.rows, order);
      InvRows(w);
      hide Inv;
      assert id in order && due[0] == w.rows[id];
      TickOneKeeps(w, id, now);
      TickOneEffect(w, id, now);
      var (w1, end) := TickOne(w, w.rows[id], now);
      if end == Finished {
        RestIsUntouched(w.rows, w1.rows, order);
        assert due[1..] == RowsOf(w1.rows, order[1..]);
        TickListedKeeps(w1, order[1..], now);
      }
    }
  }

  lemma StepKeeps(w: World, e: Event)
    requires Inv(w) && CanHappen(w, e)
    ensures Inv(Step(w, e))
  {
    hide Inv;
    match e
    case Create(cmd, at) => CreateKeeps(w, cmd, at);
    case Ack(id, user, at) => AckKeeps(w, id, user, at);
    case Delete(id) => RemoveKeeps(w, id);
    case Tick(order, at) =>
      SameRowsAndLogKeep(w, w.Called());
      TickListedKeeps(w.Called(), order, at);
  }

  lemma {:induction false} RunKeeps(w: World, es: seq<Event>)
    requires Inv(w) && IsRun(w, es)
    ensures Inv(Run(w, es))
    decreases |es|
  {
    hide Inv, Step, CanHappen;
    if es != [] {
      StepKeeps(w, es[0]);
      RunKeeps(Step(w, es[0]), es[1..]);
    }
  }

  lemma StartIsGood(script: seq<Outcome>)
    ensures Inv(Start(script))
  {
  }

  /** What some run, with any failing calls, has made of the empty store. */
  ghost predicate Reached(w: World) {
    exists script, es :: IsRun(Start(script), es) && Run(Start(script), es) == w
  }

  lemma ReachedIsGood(w: World)
    requires Reached(w)
    ensures Inv(w)
  {
    var script, es :| IsRun(Start(script), es) && Run(Start(script), es) == w;
    StartIsGood(script);
    RunKeeps(Start(script), es);
  }

  lemma {:induction false} RunExtends(w: World, es: seq<Event>, e: Event)
    requires IsRun(w, es) && CanHappen(Run(w, es), e)
    ensures IsRun(w, es + [e]) && Run(w, es + [e]) == Step(Run(w, es), e)
    decreases |es|
  {
    hide Step, CanHappen;
    if es == [] {
      assert ([] + [e])[1..] == [];
      assert IsRun(Step(w, e), []) && Run(Step(w, e), []) == Step(w, e);
    } else {
      assert (es + [e])[1..] == es[1..] + [e];
      RunExtends(Step(w, es[0]), es[1..], e);
    }
  }

  lemma StepReaches(w: World, e: Event)
    requires Reached(w) && CanHappen(w, e)
    ensures Reached(Step(w, e))
  {
    hide Step, CanHappen;
    var script, es :| IsRun(Start(script), es) && Run(Start(script), es) == w;
    RunExtends(Start(script), es, e);
  }

  lemma StartIsReached()
    ensures Reached(Start([]))
  {
    assert IsRun(Start([]), []) && Run(Start([]), []) == Start([]);
  }

  // ---- The theorems ----

  /** In no run from the empty store does a tick panic: every stored recurring reminder has kept its interval. */
  lemma NoTickPanics(w: World, order: seq<ReminderId>, at: Time)
    requires Reached(w) && IsListing(order, w.rows, at)
    ensures S.Tick(w, order, at).1 != Panicked
  {
    hide Inv, Reached, S.Tick;
    ReachedIsGood(w);
    InvRows(w);
    var k := TickOutcome(w, order, at);
  }

  /**
   * In every run from the empty store, whatever calls fail: a stored reminder has no acks; its fire count never
   * exceeds its notifications since its latest creation and falls behind them by at most the failed calls.
   */
  lemma StoredRemindersCountTheirNotifications(script: seq<Outcome>, es: seq<Event>, id: ReminderId)
    requires IsRun(Start(script), es) && id in Run(Start(script), es).rows
    ensures var w := Run(Start(script), es);
            && w.rows[id].acks == []
            && w.rows[id].state.fireCount <= Since(w.log, id) <= w.rows[id].state.fireCount + w.failures
  {
    StartIsGood(script);
    RunKeeps(Start(script), es);
    var w := Run(Start(script), es);
    assert Good(RowAt(w.rows, id), w.log, w.failures, id);
  }

  /**
   * In every run, stored or gone: a one-time reminder without ack has been notified at most once since its
   * latest creation, a quiet one with ack at most twice, plus the number of failed calls.
   */
  lemma NotificationsStayInBudget(script: seq<Outcome>, es: seq<Event>, id: ReminderId)
    requires IsRun(Start(script), es) && Origin(Run(Start(script), es).log, id).Some?
    requires Budget(Origin(Run(Start(script), es).log, id).value).Some?
    ensures var w := Run(Start(script), es);
            Since(w.log, id) <= Budget(Origin(w.log, id).value).value + w.failures
  {
    StartIsGood(script);
    RunKeeps(Start(script), es);
    var w := Run(Start(script), es);
    assert Good(RowAt(w.rows, id), w.log, w.failures, id);
  }

  /** Without failures there are none to add: the two bounds above are then exact counts and plain budgets. */
  lemma {:induction false} NoScriptNoFailures(w: World, es: seq<Event>)
    requires IsRun(w, es) && w.script == [] && Inv(w)
    ensures Run(w, es).failures == w.failures && Run(w, es).script == []
    decreases |es|
  {
    hide Inv;
    if es != [] {
      StepKeeps(w, es[0]);
      if es[0].Tick? {
        hide Telling, NextRow, Stored, TickAll;
        var k := TickOutcome(w, es[0].order, es[0].at);
      }
      NoScriptNoFailures(Step(w, es[0]), es[1..]);
    }
  }

  lemma FailureFreeCounts(es: seq<Event>, id: ReminderId)
    requires IsRun(Start([]), es)
    ensures var w := Run(Start([]), es);
            && (id in w.rows ==> w.rows[id].state.fireCount == Since(w.log, id))
            && (Origin(w.log, id).Some? && SingleShot(Origin(w.log, id).value) ==> Since(w.log, id) <= 1)
            && (Origin(w.log, id).Some? && QuietEscalation(Origin(w.log, id).value) ==> Since(w.log, id) <= 2)
  {
    StartIsGood([]);
    NoScriptNoFailures(Start([]), es);
    var w := Run(Start([]), es);
    if id in w.rows {
      StoredRemindersCountTheirNotifications([], es, id);
    }
    if Origin(w.log, id).Some? && Budget(Origin(w.log, id).value).Some? {
      NotificationsStayInBudget([], es, id);
    }
  }

  /** The first successful ack removes a reminder, a recurring one too. */
  lemma AckRemoves(w: World, id: ReminderId, user: UserId, at: Time)
    requires S.Ack(w, id, user, at).1
    ensures S.Ack(w, id, user, at).0.rows == w.rows - {id}
  {
    AckCompletes(w.rows[id], user, at);
  }
}
