/** A reminder and its life cycle (domain.go, policy.go, lifecycle.go). Times are nanoseconds. */
module Reminders {
  import opened Options
  import opened PriceSlots

  type ReminderId = string
  type UserId = string
  type Profile = string

  const QUIET: Profile := "quiet"
  const NORMAL: Profile := "normal"
  const ANNOYING: Profile := "annoying"

  datatype ScheduleKind = Once | Recurring | OtherKind(name: string)

  datatype Schedule = Schedule(
    kind: ScheduleKind, triggerAt: Time, nextRunAt: Option<Time>, recurEvery: Option<Duration>, validUntil: Option<Time>)

  datatype DeliveryPolicy = DeliveryPolicy(requiresAck: bool, profile: Profile)

  datatype State = State(fireCount: nat, lastFiredAt: Option<Time>, createdAt: Time, updatedAt: Time)

  datatype Metadata = Metadata(source: string, owner: string, message: string)

  datatype UserAck = UserAck(user: UserId, ackedAt: Time)

  datatype ReminderError = NoTargets | InvalidSchedule | NotTarget | NotFound | BackendFailed

  /** Which delays a profile uses; maxRepeats 0 means no limit. */
  datatype EscalationPolicy = EscalationPolicy(
    initialDelay: Duration, repeatInterval: Duration, decreaseStep: Duration, minInterval: Duration, maxRepeats: nat)

  const ESCALATION_QUIET := EscalationPolicy(30 * MINUTE, HOUR, 0, 0, 3)
  const ESCALATION_NORMAL := EscalationPolicy(15 * MINUTE, 15 * MINUTE, 0, 0, 0)
  const ESCALATION_ANNOYING := EscalationPolicy(15 * MINUTE, 15 * MINUTE, 2 * MINUTE, 5 * MINUTE, 0)

  function PolicyForProfile(p: Profile): EscalationPolicy {
    if p == QUIET then ESCALATION_QUIET
    else if p == ANNOYING then ESCALATION_ANNOYING
    else ESCALATION_NORMAL
  }

  datatype Reminder = Reminder(
    id: ReminderId, targets: set<UserId>, acks: seq<UserAck>, schedule: Schedule, policy: DeliveryPolicy, state: State,
    meta: Metadata)
  {
    /** What handler.go guarantees and New does not check: a recurring reminder has an interval. */
    predicate HasInterval() {
      schedule.kind == Recurring ==> schedule.recurEvery.Some?
    }

    predicate IsDue(now: Time) {
      if schedule.nextRunAt.Some? then now >= schedule.nextRunAt.value else now >= schedule.triggerAt
    }

    predicate IsExpired(now: Time) {
      schedule.validUntil.Some? && now > schedule.validUntil.value
    }

    predicate IsComplete() {
      |acks| >= 1
    }

    predicate HasAcked(user: UserId) {
      exists i :: 0 <= i < |acks| && acks[i].user == user
    }

    /** The delay to the next firing, by the current fire count. */
    function RepeatDelay(): Duration {
      var ep := PolicyForProfile(policy.profile);
      if state.fireCount == 1 then ep.initialDelay
      else if ep.decreaseStep > 0 then
        var reduced := ep.repeatInterval - (state.fireCount - 2) * ep.decreaseStep;
        if reduced < ep.minInterval then ep.minInterval else reduced
      else ep.repeatInterval
    }

    function NextRunAfter(now: Time): Option<Time>
      requires HasInterval()
    {
      var ep := PolicyForProfile(policy.profile);
      if schedule.kind == Recurring then Some(now + schedule.recurEvery.value)
      else if policy.requiresAck then
        if ep.maxRepeats > 0 && state.fireCount >= ep.maxRepeats then None else Some(now + RepeatDelay())
      else None
    }

    /** Fired once more, with its next run still open. */
    function Counted(now: Time): Reminder {
      this.(state := state.(fireCount := state.fireCount + 1, lastFiredAt := Some(now), updatedAt := now))
    }

    /** The reminder after it fires at now. */
    function Triggered(now: Time): (r: Reminder)
      requires HasInterval()
      ensures r.HasInterval()
    {
      var fired := Counted(now);
      fired.(schedule := schedule.(nextRunAt := fired.NextRunAfter(now)),
             acks := if schedule.kind == Recurring then [] else acks)
    }

    /** The reminder after an acknowledgement, which the same user can give only once. */
    function Acknowledged(user: UserId, now: Time): Option<Reminder> {
      if user !in targets then None
      else if HasAcked(user) then Some(this)
      else Some(this.(acks := acks + [UserAck(user, now)], state := state.(updatedAt := now)))
    }
  }

  /** A failed check or a value. */
  datatype Result<+T> = Ok(value: T) | Err(error: ReminderError)

  datatype CreateCommand = CreateCommand(
    id: ReminderId, targets: set<UserId>, schedule: Schedule, policy: DeliveryPolicy, meta: Metadata)
  {
    predicate HasInterval() {
      schedule.kind == Recurring ==> schedule.recurEvery.Some?
    }
  }

  function New(cmd: CreateCommand, now: Time): Result<Reminder> {
    if cmd.targets == {} then Err(NoTargets)
    else if cmd.schedule.kind.OtherKind? then Err(InvalidSchedule)
    else
      var policy := if cmd.policy.profile == "" then cmd.policy.(profile := NORMAL) else cmd.policy;
      Ok(Reminder(cmd.id, cmd.targets, [], cmd.schedule, policy, State(0, None, now, now), cmd.meta))
  }

  /** Whoever acknowledges, one acknowledgement completes: the Save at the end of Ack is unreachable. */
  lemma AckCompletes(r: Reminder, user: UserId, now: Time)
    ensures r.Acknowledged(user, now).Some? <==> user in r.targets
    ensures r.Acknowledged(user, now).Some? ==> r.Acknowledged(user, now).value.IsComplete()
  {
  }

  /** Only targets can acknowledge. The first time it is added and noted, and a second time changes nothing. */
  lemma AcknowledgedOnce(r: Reminder, user: UserId, now: Time)
    ensures r.Acknowledged(user, now) ==
            if user !in r.targets then None
            else if exists a :: a in r.acks && a.user == user then Some(r)
            else Some(r.(acks := r.acks + [UserAck(user, now)], state := r.state.(updatedAt := now)))
    ensures user in r.targets ==>
              r.Acknowledged(user, now).value.Acknowledged(user, now) == r.Acknowledged(user, now)
  {
    if user in r.targets && !r.HasAcked(user) {
      assert r.Acknowledged(user, now).value.acks[|r.acks|].user == user;
    }
  }

  /** Fired again, a recurring reminder forgets its acknowledgements, and a one-time one keeps them. */
  lemma FiredAgain(r: Reminder, now: Time, user: UserId)
    requires r.HasInterval()
    ensures r.Triggered(now).HasAcked(user) <==> r.schedule.kind != Recurring && exists a :: a in r.acks && a.user == user
  {
  }

  /** The delay after the n-th firing, by the documented table of profiles. */
  function DocumentedDelay(p: Profile, n: nat): Duration
    requires n >= 1
  {
    var minute := 60_000_000_000;
    if p == "quiet" then if n == 1 then 30 * minute else 60 * minute
    else if p == "annoying" && n >= 2 then if n <= 7 then (15 - 2 * (n - 2)) * minute else 5 * minute
    else 15 * minute
  }

  /**
   * The n-th firing of a recurring reminder leaves it due one interval later. A one-time reminder is due again only
   * if it requires an ack, after the documented delay, and a quiet one not after its third firing.
   */
  lemma NextRunByProfile(r: Reminder, now: Time)
    requires r.HasInterval()
    ensures var n, next := r.state.fireCount + 1, r.Triggered(now).schedule.nextRunAt;
            if r.schedule.kind == Recurring then next == Some(now + r.schedule.recurEvery.value)
            else
              && (next.Some? <==> r.policy.requiresAck && (r.policy.profile == "quiet" ==> n < 3))
              && (next.Some? ==> next.value == now + DocumentedDelay(r.policy.profile, n))
  {
    var n: nat := r.state.fireCount + 1;
    if r.policy.profile == ANNOYING && n > 7 {
      assert 15 * MINUTE - (n - 2) * (2 * MINUTE) <= 15 * MINUTE - 6 * (2 * MINUTE);
    }
  }

  /** A reminder being worked on: loaded from the store, changed in place, then saved or dropped. */
  class LiveReminder {
    const id: ReminderId
    const targets: set<UserId>
    const policy: DeliveryPolicy
    const meta: Metadata
    var acks: seq<UserAck>
    var schedule: Schedule
    var state: State

    constructor (r: Reminder)
      ensures Value() == r
    {
      id, targets, policy, meta := r.id, r.targets, r.policy, r.meta;
      acks, schedule, state := r.acks, r.schedule, r.state;
    }

    function Value(): Reminder
      reads this
    {
      Reminder(id, targets, acks, schedule, policy, state, meta)
    }

    /** Not ok: it panics halfway, on a recurring reminder without interval. */
    method Trigger(now: Time) returns (ok: bool)
      modifies this
      ensures ok == old(Value()).HasInterval()
      ensures ok ==> Value() == old(Value()).Triggered(now)
      ensures !ok ==> Value() == old(Value()).Counted(now)
    {
      state := state.(fireCount := state.fireCount + 1);
      state := state.(lastFiredAt := Some(now));
      state := state.(updatedAt := now);
      ok := Value().HasInterval();
      if !ok {
        return;
      }
      schedule := schedule.(nextRunAt := Value().NextRunAfter(now));
      if schedule.kind == Recurring {
        acks := [];
      }
    }

    method Acknowledge(user: UserId, now: Time) returns (ok: bool)
      modifies this
      ensures ok <==> old(Value()).Acknowledged(user, now).Some?
      ensures Value() == if ok then old(Value()).Acknowledged(user, now).value else old(Value())
    {
      if user !in targets {
        return false;
      }
      for i := 0 to |acks|
        invariant forall j :: 0 <= j < i ==> acks[j].user != user
      {
        if acks[i].user == user {
          return true;
        }
      }
      acks := acks + [UserAck(user, now)];
      state := state.(updatedAt := now);
      ok := true;
    }
  }
}
