/** What one Tick does to the store and the log, whatever calls fail and whatever order the rows come in. */
module ReminderTick {
  import opened Options
  import opened PriceSlots
  import opened Reminders
  import opened ReminderStore

  function RowAt(rows: map<ReminderId, Reminder>, id: ReminderId): Option<Reminder> {
    if id in rows then Some(rows[id]) else None
  }

  /** A row as the store keeps it: under its own id, in whole seconds, without acknowledgements. */
  ghost predicate WellStored(r: Reminder, id: ReminderId) {
    r.id == id && r.HasInterval() && r.acks == [] && Stored(r) == r
  }

  ghost predicate AllWellStored(rows: map<ReminderId, Reminder>) {
    forall id :: id in rows ==> WellStored(rows[id], id)
  }

  lemma StoredTwice(r: Reminder)
    requires r.acks == []
    ensures Stored(r).acks == [] && Stored(Stored(r)) == Stored(r)
  {
    FloorTwice(r.schedule.triggerAt);
    FloorTwice(if r.schedule.nextRunAt.Some? then r.schedule.nextRunAt.value else 0);
    FloorTwice(if r.schedule.validUntil.Some? then r.schedule.validUntil.value else 0);
    FloorTwice(if r.state.lastFiredAt.Some? then r.state.lastFiredAt.value else 0);
    FloorTwice(r.state.createdAt);
    FloorTwice(r.state.updatedAt);
    TruncateTwice(if r.schedule.recurEvery.Some? then r.schedule.recurEvery.value else 0);
    hide FloorSecond, TruncateSecond;
    assert Stored(r).acks == [];
    assert Stored(Stored(r)).acks == [];
  }

  lemma FloorTwice(t: Time)
    ensures FloorSecond(FloorSecond(t)) == FloorSecond(t)
  {
  }

  lemma TruncateTwice(d: Duration)
    ensures TruncateSecond(TruncateSecond(d)) == TruncateSecond(d)
  {
  }

  // ---- The due test ----

  /** On every stored row the SQL test at the Unix second of now agrees with IsDue at now. */
  lemma SqlAgreesWithIsDue(r: Reminder, id: ReminderId, now: Time)
    requires WellStored(r, id)
    ensures SqlDue(r, now) <==> r.IsDue(now)
  {
    FloorBelow(r.schedule.triggerAt, now);
    if r.schedule.nextRunAt.Some? {
      FloorBelow(r.schedule.nextRunAt.value, now);
    }
  }

  lemma FloorBelow(t: Time, now: Time)
    requires FloorSecond(t) == t
    ensures t <= FloorSecond(now) <==> t <= now
  {
  }

  // ---- What a tick makes of one due reminder ----

  /** The notifier is called. */
  predicate Tells(r: Reminder, now: Time)
    requires r.HasInterval()
  {
    !r.IsExpired(now) && !Exhausted(r, now)
  }

  /** The row afterwards, if it stays. */
  function NextRow(r: Reminder, now: Time): Option<Reminder>
    requires r.HasInterval()
  {
    if Tells(r, now) && r.Triggered(now).schedule.nextRunAt.Some? then Some(Stored(r.Triggered(now))) else None
  }

  function Telling(r: Reminder, now: Time): seq<Entry>
    requires r.HasInterval()
  {
    if Tells(r, now) then [Sent(r.id, r.targets, r.meta.message, now)] else []
  }

  lemma NextRowIsWellStored(r: Reminder, id: ReminderId, now: Time)
    requires WellStored(r, id)
    ensures NextRow(r, now).Some? ==> WellStored(NextRow(r, now).value, id)
    ensures NextRow(r, now).Some? ==> NextRow(r, now).value.state.createdAt == r.state.createdAt
  {
    StoredTwice(r.Triggered(now));
    assert Stored(r).state == r.state;
  }

  /**
   * One turn of the loop under any failures. When all its calls are acknowledged, the notification has gone out and the
   * row has moved on. When the last one reports an error either the same holds, or the row is exactly as it was and at
   * most the notification has gone out.
   */
  lemma TickOneEffect(w: World, id: ReminderId, now: Time)
    requires id in w.rows && WellStored(w.rows[id], id)
    ensures var (w', end) := TickOne(w, w.rows[id], now);
            && end != Panicked
            && (end == Finished ==>
                       && w'.log == w.log + Telling(w.rows[id], now)
                       && w'.failures == w.failures
                       && RowAt(w'.rows, id) == NextRow(w.rows[id], now))
            && (end == Aborted ==>
                        && w'.failures == w.failures + 1
                        && (|| (w'.log == w.log + Telling(w.rows[id], now)
                                && RowAt(w'.rows, id) == NextRow(w.rows[id], now))
                            || (w'.rows == w.rows
                                && (w'.log == w.log || w'.log == w.log + Telling(w.rows[id], now)))))
            && (forall x :: x != id ==> RowAt(w'.rows, x) == RowAt(w.rows, x))
            && (w.script == [] ==> end == Finished && w'.script == [])
  {
    hide Stored, Reminder.NextRunAfter;
    NextRowIsWellStored(w.rows[id], id, now);
  }

  // ---- The whole loop ----

  ghost predicate Distinct(order: seq<ReminderId>) {
    forall i, j :: 0 <= i < j < |order| ==> order[i] != order[j]
  }

  function Told(rows: map<ReminderId, Reminder>, order: seq<ReminderId>, now: Time): seq<Entry>
    requires forall id :: id in order ==> id in rows && rows[id].HasInterval()
  {
    if order == [] then [] else Telling(rows[order[0]], now) + Told(rows, order[1..], now)
  }

  /** The first k listed reminders were handled; every other row is as it was. */
  ghost predicate HandledFirst(rows: map<ReminderId, Reminder>, order: seq<ReminderId>, now: Time, k: nat,
                               rows': map<ReminderId, Reminder>)
    requires k <= |order| && forall id :: id in order ==> id in rows && rows[id].HasInterval()
  {
    && (forall i :: 0 <= i < k ==> RowAt(rows', order[i]) == NextRow(rows[order[i]], now))
    && (forall id :: id !in order[..k] ==> RowAt(rows', id) == RowAt(rows, id))
  }

  /** Handled the first k listed; told them, and after an error perhaps the next one. */
  ghost predicate PrefixOutcome(w: World, order: seq<ReminderId>, now: Time, k: nat, w': World, ok: bool)
    requires forall id :: id in order ==> id in w.rows && w.rows[id].HasInterval()
  {
    && k <= |order| && (ok ==> k == |order|)
    && HandledFirst(w.rows, order, now, k, w'.rows)
    && (w'.log == w.log + Told(w.rows, order[..k], now)
        || (k < |order| && !ok && w'.log == w.log + Told(w.rows, order[..k], now) + Telling(w.rows[order[k]], now)))
    && w'.failures == (if ok then w.failures else w.failures + 1)
    && (w.script == [] ==> ok && w'.script == [])
  }

  /**
   * Under any failures the loop handles some first k of the listed reminders completely. When it succeeds that is all
   * of them; when it does not, at most the notification of the next one has gone out as well.
   */
  lemma {:induction false} TickHandlesPrefix(w: World, order: seq<ReminderId>, now: Time) returns (k: nat)
    requires Distinct(order) && forall id :: id in order ==> id in w.rows && w.rows[id].HasInterval()
    requires forall id :: id in order ==> WellStored(w.rows[id], id)
    ensures TickListed(w, order, now).1 != Panicked
    ensures PrefixOutcome(w, order, now, k, TickListed(w, order, now).0, TickListed(w, order, now).1 == Finished)
    decreases |order|
  {
    hide TickOne, Telling, NextRow, Tells, Stored;
    if order == [] {
      k := 0;
      assert w.log + [] == w.log;
    } else {
      var id, rest, due := order[0], order[1..], RowsOf(w.rows, order);
      assert due[0] == w.rows[id] && id in order;
      TickOneEffect(w, id, now);
      var (w1, end) := TickOne(w, w.rows[id], now);
      if end == Aborted {
        k := if w1.rows == w.rows then 0 else 1;
        FailedTurn(w, w1, order, now, k);
      } else {
        RestIsUntouched(w.rows, w1.rows, order);
        assert due[1..] == RowsOf(w1.rows, rest);
        var k' := TickHandlesPrefix(w1, rest, now);
        k := k' + 1;
        PrefixStep(w, w1, order, now, k', TickListed(w1, rest, now).0, TickListed(w1, rest, now).1 == Finished);
      }
    }
  }

  /** The turn of the first listed reminder has ended with an error, after k of its rows have moved on. */
  lemma FailedTurn(w: World, w1: World, order: seq<ReminderId>, now: Time, k: nat)
    requires order != [] && forall id :: id in order ==> id in w.rows && w.rows[id].HasInterval()
    requires k == (if w1.rows == w.rows then 0 else 1)
    requires w1.failures == w.failures + 1 && w.script != []
    requires || (w1.log == w.log + Telling(w.rows[order[0]], now)
                 && RowAt(w1.rows, order[0]) == NextRow(w.rows[order[0]], now))
             || (w1.rows == w.rows && (w1.log == w.log || w1.log == w.log + Telling(w.rows[order[0]], now)))
    requires forall x :: x != order[0] ==> RowAt(w1.rows, x) == RowAt(w.rows, x)
    ensures PrefixOutcome(w, order, now, k, w1, false)
  {
    hide Telling, NextRow;
    assert w.log + [] == w.log && order[..0] == [] && order[..1] == [order[0]];
    assert Told(w.rows, [order[0]], now) == Telling(w.rows[order[0]], now) + [] == Telling(w.rows[order[0]], now);
  }

  lemma RestIsUntouched(rows: map<ReminderId, Reminder>, rows1: map<ReminderId, Reminder>, order: seq<ReminderId>)
    requires Distinct(order) && order != [] && forall id :: id in order ==> id in rows
    requires forall x :: x != order[0] ==> RowAt(rows1, x) == RowAt(rows, x)
    ensures Distinct(order[1..])
    ensures forall x :: x in order[1..] ==> x in order && x in rows1 && rows1[x] == rows[x]
  {
    forall x | x in order[1..] ensures x in order && x != order[0] && RowAt(rows1, x) == RowAt(rows, x) {
      var i :| 0 <= i < |order[1..]| && order[1..][i] == x;
      assert order[i + 1] == x;
    }
  }

  lemma PrefixStep(w: World, w1: World, order: seq<ReminderId>, now: Time, k: nat, w': World, ok: bool)
    requires Distinct(order) && order != [] && forall id :: id in order ==> id in w.rows && w.rows[id].HasInterval()
    requires w1.log == w.log + Telling(w.rows[order[0]], now) && w1.failures == w.failures
    requires RowAt(w1.rows, order[0]) == NextRow(w.rows[order[0]], now)
    requires forall x :: x != order[0] ==> RowAt(w1.rows, x) == RowAt(w.rows, x)
    requires forall x :: x in order[1..] ==> x in w1.rows && w1.rows[x] == w.rows[x]
    requires w.script == [] ==> w1.script == []
    requires forall id :: id in order[1..] ==> w1.rows[id].HasInterval()
    requires PrefixOutcome(w1, order[1..], now, k, w', ok)
    ensures PrefixOutcome(w, order, now, k + 1, w', ok)
  {
    hide Telling, NextRow;
    var rest := order[1..];
    HandledStep(w.rows, w1.rows, order, now, k + 1, w'.rows);
    hide HandledFirst;
    ToldStep(w.rows, w1.rows, order, now, k + 1);
    assert k < |rest| ==> rest[k] == order[k + 1];
    assert w1.log + Told(w1.rows, rest[..k], now)
        == w.log + (Telling(w.rows[order[0]], now) + Told(w1.rows, rest[..k], now));
  }

  lemma HandledStep(rows: map<ReminderId, Reminder>, rows1: map<ReminderId, Reminder>, order: seq<ReminderId>, now: Time,
                    k: nat, rows': map<ReminderId, Reminder>)
    requires 0 < k <= |order| && Distinct(order)
    requires forall id :: id in order ==> id in rows && rows[id].HasInterval()
    requires RowAt(rows1, order[0]) == NextRow(rows[order[0]], now)
    requires forall x :: x != order[0] ==> RowAt(rows1, x) == RowAt(rows, x)
    requires forall id :: id in order[1..] ==> id in rows1 && rows1[id].HasInterval()
    requires HandledFirst(rows1, order[1..], now, k - 1, rows')
    ensures HandledFirst(rows, order, now, k, rows')
  {
    var rest := order[1..];
    assert order[..k] == [order[0]] + rest[..k - 1];
    forall i | 0 <= i < k ensures RowAt(rows', order[i]) == NextRow(rows[order[i]], now) {
      if i == 0 {
        assert order[0] !in rest[..k - 1];
      } else {
        assert order[i] == rest[i - 1];
        assert RowAt(rows1, order[i]) == RowAt(rows, order[i]);
      }
    }
  }

  lemma ToldStep(rows: map<ReminderId, Reminder>, rows1: map<ReminderId, Reminder>, order: seq<ReminderId>, now: Time,
                 k: nat)
    requires 0 < k <= |order| && Distinct(order)
    requires forall id :: id in order ==> id in rows && rows[id].HasInterval()
    requires forall id :: id in order[1..] ==> id in rows1 && rows1[id] == rows[id]
    ensures Told(rows, order[..k], now) == Telling(rows[order[0]], now) + Told(rows1, order[1..][..k - 1], now)
  {
    assert order[..k][1..] == order[1..][..k - 1];
    ToldDependsOnListed(rows, rows1, order[1..][..k - 1], now);
  }

  lemma {:induction false} ToldDependsOnListed(rows: map<ReminderId, Reminder>, rows1: map<ReminderId, Reminder>,
                                               order: seq<ReminderId>, now: Time)
    requires forall id :: id in order ==> id in rows && id in rows1 && rows1[id] == rows[id] && rows[id].HasInterval()
    ensures Told(rows, order, now) == Told(rows1, order, now)
    decreases |order|
  {
    if order != [] {
      ToldDependsOnListed(rows, rows1, order[1..], now);
    }
  }

  // ---- Consequences for one Tick ----

  ghost predicate CanTick(w: World, order: seq<ReminderId>, now: Time) {
    AllWellStored(w.rows) && IsListing(order, w.rows, now)
  }

  /** Tick handles some first k of the due reminders; when it aborts the others are as they were. */
  lemma TickOutcome(w: World, order: seq<ReminderId>, now: Time) returns (k: nat)
    requires CanTick(w, order, now)
    ensures k <= |order|
    ensures var (w', end) := Tick(w, order, now);
            && end != Panicked
            && (end == Finished ==> k == |order| && w'.failures == w.failures)
            && (end == Aborted ==> w'.failures == w.failures + 1)
            && HandledFirst(w.rows, order, now, k, w'.rows)
            && (w'.log == w.log + Told(w.rows, order[..k], now)
                || (k < |order| && w'.log == w.log + Told(w.rows, order[..k], now) + Telling(w.rows[order[k]], now)))
            && (w.script == [] ==> end == Finished && w'.script == [])
  {
    if w.NextFails() {
      k := 0;
      assert order[..0] == [] && w.log + [] == w.log;
    } else {
      hide Telling, NextRow, Stored, TickAll;
      k := TickHandlesPrefix(w.Called(), order, now);
    }
  }

  lemma {:induction false} ToldIncludes(rows: map<ReminderId, Reminder>, order: seq<ReminderId>, now: Time, id: ReminderId)
    requires forall x :: x in order ==> x in rows && rows[x].HasInterval()
    requires id in order && Tells(rows[id], now)
    ensures Telling(rows[id], now)[0] in Told(rows, order, now)
    decreases |order|
  {
    hide Tells;
    if order[0] != id {
      ToldIncludes(rows, order[1..], now, id);
    }
  }

  /** The notifications of one reminder in a stretch of the log. */
  function SentTo(log: seq<Entry>, id: ReminderId): (sent: seq<Entry>)
    ensures forall e :: e in sent ==> e.Sent?
  {
    if log == [] then []
    else
      var e := log[|log| - 1];
      SentTo(log[..|log| - 1], id) + if e.Sent? && e.id == id then [e] else []
  }

  lemma {:induction false} SentToAppend(log: seq<Entry>, more: seq<Entry>, id: ReminderId)
    ensures SentTo(log + more, id) == SentTo(log, id) + SentTo(more, id)
  {
    if more == [] {
      assert log + more == log;
    } else {
      assert (log + more)[..|log + more| - 1] == log + more[..|more| - 1];
      SentToAppend(log, more[..|more| - 1], id);
    }
  }

  /** Each listed reminder is told once at most. */
  lemma {:induction false} ToldOnce(rows: map<ReminderId, Reminder>, order: seq<ReminderId>, now: Time, id: ReminderId)
    requires Distinct(order) && forall x :: x in order ==> x in rows && rows[x].HasInterval() && rows[x].id == x
    ensures SentTo(Told(rows, order, now), id) ==
            if id in order && Tells(rows[id], now) then [Sent(id, rows[id].targets, rows[id].meta.message, now)] else []
    decreases |order|
  {
    hide Tells;
    if order != [] {
      var head, rest := order[0], order[1..];
      forall x | x in rest ensures x in order && x != head {
        var i :| 0 <= i < |rest| && rest[i] == x;
        assert order[i + 1] == x;
      }
      ToldOnce(rows, rest, now, id);
      SentToAppend(Telling(rows[head], now), Told(rows, rest, now), id);
      if Tells(rows[head], now) {
        assert Telling(rows[head], now)[..0] == [];
      }
    }
  }

  /**
   * Whatever fails, a reminder leaves the store at a tick only when it is due, and only if its validity has passed, if
   * it is quiet, waits for an acknowledgement and has been sent twice, or if it is sent.
   */
  lemma LeavesForAReason(w: World, order: seq<ReminderId>, now: Time, id: ReminderId)
    requires CanTick(w, order, now) && id in w.rows && id !in Tick(w, order, now).0.rows
    ensures var r, log := w.rows[id], Tick(w, order, now).0.log;
            && (if r.schedule.nextRunAt.Some? then r.schedule.nextRunAt.value else r.schedule.triggerAt) <= now
            && w.log <= log
            && (|| (r.schedule.validUntil.Some? && r.schedule.validUntil.value < now)
                || (r.schedule.kind != Recurring && r.policy == DeliveryPolicy(true, "quiet") && r.state.fireCount >= 2)
                || Sent(id, r.targets, r.meta.message, now) in log[|w.log|..])
  {
    hide Tick, Stored;
    var k := TickOutcome(w, order, now);
    var w' := Tick(w, order, now).0;
    assert RowAt(w'.rows, id) == None && RowAt(w.rows, id) != None;
    assert id in order[..k];
    SqlAgreesWithIsDue(w.rows[id], id, now);
    NextRunByProfile(w.rows[id], now);
    if Tells(w.rows[id], now) {
      ToldIncludes(w.rows, order[..k], now, id);
      assert Told(w.rows, order[..k], now) <= w'.log[|w.log|..];
    }
  }

  /** When Tick aborts, the reminders from some position on are exactly as before, and still due. */
  lemma AbortLeavesTheRestDue(w: World, order: seq<ReminderId>, now: Time) returns (k: nat)
    requires CanTick(w, order, now) && Tick(w, order, now).1 == Aborted
    ensures k <= |order|
    ensures forall i :: 0 <= i < k ==> RowAt(Tick(w, order, now).0.rows, order[i]) == NextRow(w.rows[order[i]], now)
    ensures forall i :: k <= i < |order| ==>
                          && RowAt(Tick(w, order, now).0.rows, order[i]) == Some(w.rows[order[i]])
                          && w.rows[order[i]].IsDue(now)
  {
    hide Tick, Stored, NextRow;
    k := TickOutcome(w, order, now);
    forall i | k <= i < |order|
      ensures RowAt(Tick(w, order, now).0.rows, order[i]) == Some(w.rows[order[i]]) && w.rows[order[i]].IsDue(now)
    {
      assert order[i] !in order[..k];
      assert order[i] in order && WellStored(w.rows[order[i]], order[i]);
      SqlAgreesWithIsDue(w.rows[order[i]], order[i], now);
    }
  }

  // ---- Recurring reminders without interval ----

  ghost predicate Keyed(rows: map<ReminderId, Reminder>) {
    forall id :: id in rows ==> rows[id].id == id
  }

  /** On this row the tick panics. */
  predicate Stops(r: Reminder, now: Time) {
    !r.IsExpired(now) && !r.HasInterval()
  }

  lemma TurnOfAny(w: World, r: Reminder, now: Time)
    requires w.script == [] && Keyed(w.rows)
    ensures var (w', end) := TickOne(w, r, now);
            && w'.script == [] && Keyed(w'.rows)
            && end == (if Stops(r, now) then Panicked else Finished) && (Stops(r, now) ==> w' == w)
            && (forall x :: x != r.id ==> RowAt(w'.rows, x) == RowAt(w.rows, x))
  {
    hide Reminder.NextRunAfter;
  }

  /** The loop panics exactly if one of the listed rows stops it, and leaves all that do as they were. */
  lemma {:induction false} LoopPanicsIff(w: World, order: seq<ReminderId>, now: Time)
    requires w.script == [] && Keyed(w.rows) && Distinct(order) && forall id :: id in order ==> id in w.rows
    ensures var (w', end) := TickListed(w, order, now);
            && w'.script == [] && Keyed(w'.rows)
            && (end == Panicked <==> exists id :: id in order && Stops(w.rows[id], now))
            && (forall id :: id in w.rows && Stops(w.rows[id], now) ==> RowAt(w'.rows, id) == Some(w.rows[id]))
    decreases |order|
  {
    hide TickOne, Stops, Keyed;
    if order != [] {
      var id, rest, due := order[0], order[1..], RowsOf(w.rows, order);
      assert id in order && due[0] == w.rows[id] && forall x :: x in order <==> x == id || x in rest;
      KeyOf(w.rows, id);
      TurnOfAny(w, w.rows[id], now);
      var w1 := TickOne(w, w.rows[id], now).0;
      if !Stops(w.rows[id], now) {
        RestIsUntouched(w.rows, w1.rows, order);
        assert due[1..] == RowsOf(w1.rows, rest);
        LoopPanicsIff(w1, rest, now);
        assert forall x :: x in w.rows && x != id ==> RowAt(w1.rows, x) == RowAt(w.rows, x);
      }
    }
  }

  lemma KeyOf(rows: map<ReminderId, Reminder>, id: ReminderId)
    requires Keyed(rows) && id in rows
    ensures rows[id].id == id
  {
  }

  /** Without failures a tick panics exactly if a due and unexpired recurring reminder has no interval. */
  lemma TickPanicsIff(w: World, order: seq<ReminderId>, now: Time)
    requires w.script == [] && Keyed(w.rows) && IsListing(order, w.rows, now)
    ensures Tick(w, order, now).1 == Panicked <==>
            exists id :: id in w.rows && SqlDue(w.rows[id], now) && Stops(w.rows[id], now)
  {
    hide TickListed, Stops, SqlDue;
    assert w.Called() == w;
    LoopPanicsIff(w, order, now);
  }

  /** It leaves such a reminder as it was, so every later tick panics too, until the reminder expires or is deleted. */
  lemma PanicRepeats(w: World, order: seq<ReminderId>, now: Time, order': seq<ReminderId>, now': Time, id: ReminderId)
    requires w.script == [] && Keyed(w.rows) && IsListing(order, w.rows, now)
    requires id in w.rows && SqlDue(w.rows[id], now) && Stops(w.rows[id], now)
    requires now <= now' && Stops(w.rows[id], now') && IsListing(order', Tick(w, order, now).0.rows, now')
    ensures Tick(w, order, now).1 == Panicked && Tick(Tick(w, order, now).0, order', now').1 == Panicked
  {
    var w' := Tick(w, order, now).0;
    FloorSecondAscends(now, now');
    hide TickListed, Stops, FloorSecond;
    assert w.Called() == w;
    LoopPanicsIff(w, order, now);
    TickPanicsIff(w, order, now);
    assert RowAt(w'.rows, id) == Some(w.rows[id]);
    TickPanicsIff(w', order', now');
  }

  lemma FloorSecondAscends(t: Time, t': Time)
    requires t <= t'
    ensures FloorSecond(t) <= FloorSecond(t')
  {
    assert t / SECOND <= t' / SECOND;
  }

  // ---- A tick without failures ----

  lemma DelayIsLong(r: Reminder)
    requires r.state.fireCount >= 1
    ensures r.RepeatDelay() >= 5 * MINUTE
    ensures r.policy.profile != ANNOYING ==> r.RepeatDelay() >= 15 * MINUTE
  {
  }

  lemma FloorShift(now: Time, d: Duration)
    ensures d >= SECOND ==> FloorSecond(now + d) > FloorSecond(now)
    ensures d >= SECOND ==> FloorSecond(now + d) > now
    ensures d <= 0 ==> FloorSecond(now + d) <= FloorSecond(now)
    ensures FloorSecond(d) == d ==> FloorSecond(now + d) == FloorSecond(now) + d
  {
  }

  /** A row that stays is still due exactly if it recurs at an interval the store cut down to nothing. */
  lemma StillDueOnlyByInterval(r: Reminder, id: ReminderId, now: Time)
    requires WellStored(r, id) && NextRow(r, now).Some?
    ensures NextRow(r, now).value.IsDue(now) <==>
            r.schedule.kind == Recurring && r.schedule.recurEvery.value < SECOND
  {
    var fired := r.Triggered(now);
    if r.schedule.kind == Recurring {
      var every := r.schedule.recurEvery.value;
      assert TruncateSecond(every) == every;
      IntervalIsWhole(every);
      FloorShift(now, every);
    } else {
      var counted := fired.(schedule := r.schedule);
      DelayIsLong(counted);
      FloorShift(now, counted.RepeatDelay());
    }
  }

  lemma IntervalIsWhole(d: Duration)
    requires TruncateSecond(d) == d
    ensures d < SECOND ==> d <= 0
  {
  }

  /**
   * After a failure-free Tick at now nothing is due at now, if and only if every due recurring reminder that
   * had not expired recurs at one second or more.
   */
  lemma NothingDueAfterwards(w: World, order: seq<ReminderId>, now: Time)
    requires CanTick(w, order, now) && w.script == []
    ensures (forall id :: id in Tick(w, order, now).0.rows ==> !Tick(w, order, now).0.rows[id].IsDue(now)) <==>
            (forall id :: id in w.rows && w.rows[id].IsDue(now) && !w.rows[id].IsExpired(now)
                          && w.rows[id].schedule.kind == Recurring
                          ==> w.rows[id].schedule.recurEvery.value >= SECOND)
  {
    hide Tick, Stored;
    var k := TickOutcome(w, order, now);
    assert order[..k] == order;
    var rows' := Tick(w, order, now).0.rows;
    forall id | id in w.rows
      ensures WellStored(w.rows[id], id) && (id in order <==> w.rows[id].IsDue(now))
      ensures RowAt(rows', id) == if id in order then NextRow(w.rows[id], now) else Some(w.rows[id])
    {
      SqlAgreesWithIsDue(w.rows[id], id, now);
      if id in order {
        var i :| 0 <= i < |order| && order[i] == id;
      }
    }
    forall id | id in w.rows
      ensures id in rows' && rows'[id].IsDue(now) <==>
              w.rows[id].IsDue(now) && !w.rows[id].IsExpired(now) && w.rows[id].schedule.kind == Recurring
              && w.rows[id].schedule.recurEvery.value < SECOND
    {
      if id in order && NextRow(w.rows[id], now).Some? {
        StillDueOnlyByInterval(w.rows[id], id, now);
      }
    }
    assert forall id :: id in rows' ==> RowAt(rows', id) != None && id in w.rows;
  }

  /** So a second Tick at the same time sends nothing and changes nothing. */
  lemma SecondTickIsIdle(w: World, order: seq<ReminderId>, now: Time, order': seq<ReminderId>)
    requires CanTick(w, order, now) && w.script == []
    requires forall id :: id in w.rows && w.rows[id].schedule.kind == Recurring
                          ==> w.rows[id].schedule.recurEvery.value >= SECOND
    requires CanTick(Tick(w, order, now).0, order', now)
    ensures Tick(Tick(w, order, now).0, order', now) == (Tick(w, order, now).0, Finished)
  {
    var w' := Tick(w, order, now).0;
    NothingDueAfterwards(w, order, now);
    var k := TickOutcome(w, order, now);
    if order' != [] {
      assert order'[0] in order';
      SqlAgreesWithIsDue(w'.rows[order'[0]], order'[0], now);
      assert false;
    }
  }

  /** The order in which the database lists the due rows makes no difference to the store. */
  lemma OrderDoesNotMatter(w: World, order: seq<ReminderId>, order': seq<ReminderId>, now: Time)
    requires CanTick(w, order, now) && CanTick(w, order', now) && w.script == []
    ensures Tick(w, order, now).0.rows == Tick(w, order', now).0.rows
  {
    hide Tick, NextRow, Stored;
    var k := TickOutcome(w, order, now);
    var k' := TickOutcome(w, order', now);
    assert order[..k] == order && order'[..k'] == order';
    forall id
      ensures RowAt(Tick(w, order, now).0.rows, id) == RowAt(Tick(w, order', now).0.rows, id)
    {
      assert id in order <==> id in order';
      if id in order {
        var i, j :| 0 <= i < |order| && order[i] == id && 0 <= j < |order'| && order'[j] == id;
      }
    }
    SameRows(Tick(w, order, now).0.rows, Tick(w, order', now).0.rows);
  }

  lemma SameRows(rows: map<ReminderId, Reminder>, rows': map<ReminderId, Reminder>)
    requires forall id :: RowAt(rows, id) == RowAt(rows', id)
    ensures rows == rows'
  {
    forall id ensures id in rows <==> id in rows' {
      assert RowAt(rows, id) == RowAt(rows', id);
    }
    forall id | id in rows ensures rows[id] == rows'[id] {
      assert RowAt(rows, id) == RowAt(rows', id);
    }
  }
}
