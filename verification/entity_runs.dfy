/** Whole runs of the entity runtime, with failing publishes and restarts of the process. */
module EntityRuns {
  import opened Options
  import opened Topics
  import R = EntityRuntime
  import opened EntityRuntime
  import opened EntityReconnect

  datatype Event =
    | Declare(spec: Spec)
    | SetState(key: string, payload: Payload)
    | OnCommand(key: string, handler: Handler)
    | Remove(rawKey: string)
    | Reconcile(keep: seq<string>, order: seq<string>)
    | Reconnect(order: seq<string>)
    | Restart

  /** Maps are listed in some order. */
  ghost predicate CanHappen(s: State, e: Event) {
    match e
    case Declare(spec) => spec.discovery != ""
    case Reconcile(_, order) => IsListing(order, s.kinds.Keys)
    case Reconnect(order) => IsListing(order, s.entities.Keys) && forall k :: k in order ==> k in s.entities
    case _ => true
  }

  ghost function Step(cfg: Config, s: State, e: Event): State
    requires CanHappen(s, e)
  {
    match e
    case Declare(spec) => R.Declare(cfg, s, spec).0
    case SetState(key, payload) => R.SetState(cfg, s, key, payload).0
    case OnCommand(key, handler) => R.OnCommand(s, key, handler).0
    case Remove(rawKey) => R.Remove(cfg, s, rawKey).0
    case Reconcile(keep, order) => R.Reconcile(cfg, s, keep, order).0
    case Reconnect(order) => R.HandleReconnect(cfg, s, order).0
    case Restart => R.Restarted(cfg, s)
  }

  ghost predicate IsRun(cfg: Config, s: State, es: seq<Event>)
    decreases |es|
  {
    es == [] || (CanHappen(s, es[0]) && IsRun(cfg, Step(cfg, s, es[0]), es[1..]))
  }

  ghost function Run(cfg: Config, s: State, es: seq<Event>): State
    requires IsRun(cfg, s, es)
    decreases |es|
  {
    if es == [] then s else Run(cfg, Step(cfg, s, es[0]), es[1..])
  }

  /** No discovery or state topic holds anything. */
  ghost predicate NothingHeld(cfg: Config, s: State) {
    && (forall kind, k :: Held(s.broker.retained, Discovery(cfg, kind, k)) == None)
    && (forall k :: Held(s.broker.retained, StateOf(cfg, k)) == None)
  }

  /** When an event leaves no orphan; a restart does unless there is a registry file, or nothing to lose. */
  ghost predicate IsClean(cfg: Config, s: State, e: Event) {
    match e
    case Declare(spec) => LeavesNoOrphan(cfg, s, spec)
    case Restart => cfg.persistent || NothingHeld(cfg, s)
    case _ => true
  }

  ghost predicate IsCleanRun(cfg: Config, s: State, es: seq<Event>)
    requires IsRun(cfg, s, es)
    decreases |es|
  {
    es != [] ==> IsClean(cfg, s, es[0]) && IsCleanRun(cfg, Step(cfg, s, es[0]), es[1..])
  }

  lemma StepKeepsInv(cfg: Config, s: State, e: Event)
    requires Inv(s) && CanHappen(s, e)
    ensures Inv(Step(cfg, s, e))
  {
    hide R.Remove, R.HandleReconnect, R.SetState, R.Declare, R.RemoveStale, IsKey;
    match e
    case Declare(spec) =>
      DeclareKeepsInv(cfg, s, spec);
    case SetState(key, payload) =>
      SetStateKeeps(cfg, s, key, payload);
    case Remove(rawKey) =>
      RemoveKeeps(cfg, s, rawKey);
    case Reconcile(keep, order) =>
      StaleKeepsInv(cfg, s, order, KeepSet(keep));
    case Reconnect(order) =>
      ReconnectKeeps(cfg, s, order);
    case _ =>
  }

  lemma {:induction false} StaleKeepsInv(cfg: Config, s: State, order: seq<string>, keep: set<string>)
    requires Inv(s)
    ensures Inv(RemoveStale(cfg, s, order, keep).0)
    decreases |order|
  {
    hide Inv, R.Remove;
    if order != [] {
      if order[0] in keep {
        StaleKeepsInv(cfg, s, order[1..], keep);
      } else {
        RemoveKeepsInv(cfg, s, order[0]);
        StaleKeepsInv(cfg, R.Remove(cfg, s, order[0]).0, order[1..], keep);
      }
    }
  }

  lemma RemoveKeepsInv(cfg: Config, s: State, rawKey: string)
    requires Inv(s)
    ensures Inv(R.Remove(cfg, s, rawKey).0)
  {
    hide *;
    RemoveKeeps(cfg, s, rawKey);
  }

  /** An event keeps the broker free of orphans exactly if it is clean. */
  lemma StepKeeps(cfg: Config, s: State, e: Event)
    requires Inv(s) && NoOrphans(cfg, s) && CanHappen(s, e)
    ensures Inv(Step(cfg, s, e))
    ensures NoOrphans(cfg, Step(cfg, s, e)) <==> IsClean(cfg, s, e)
  {
    StepKeepsInv(cfg, s, e);
    hide LeavesNoOrphan, R.Remove, R.Reconcile, R.HandleReconnect, R.SetState, R.Declare, Discovery, StateOf, Held, IsKey;
    match e
    case Declare(spec) =>
      hide NoOrphans, Inv;
      DeclareOrphans(cfg, s, spec);
    case SetState(key, payload) =>
      hide NoOrphans, Inv;
      SetStateKeeps(cfg, s, key, payload);
    case OnCommand(key, handler) =>
    case Remove(rawKey) =>
      hide NoOrphans, Inv;
      RemoveKeeps(cfg, s, rawKey);
    case Reconcile(keep, order) =>
      hide NoOrphans, Inv;
      ReconcileLeavesKept(cfg, s, keep, order);
    case Reconnect(order) =>
      hide NoOrphans, Inv;
      ReconnectKeeps(cfg, s, order);
    case Restart =>
      RestartOrphans(cfg, s);
  }

  /** Without a file the new process knows no key, so everything the broker holds is orphaned. */
  lemma RestartOrphans(cfg: Config, s: State)
    requires NoOrphans(cfg, s)
    ensures NoOrphans(cfg, R.Restarted(cfg, s)) <==> cfg.persistent || NothingHeld(cfg, s)
  {
    hide Discovery, StateOf, Held;
    if !cfg.persistent && NoOrphans(cfg, R.Restarted(cfg, s)) {
      forall kind, k ensures Held(s.broker.retained, Discovery(cfg, kind, k)) == None {
        assert Held(R.Restarted(cfg, s).broker.retained, Discovery(cfg, kind, k)).None?;
      }
    }
  }

  /** In every run, whatever publishes fail, no topic is orphaned as long as each event is clean. */
  lemma {:induction false} RunLeavesNoOrphans(cfg: Config, s: State, es: seq<Event>)
    requires Inv(s) && NoOrphans(cfg, s) && IsRun(cfg, s, es) && IsCleanRun(cfg, s, es)
    ensures Inv(Run(cfg, s, es)) && NoOrphans(cfg, Run(cfg, s, es))
    decreases |es|
  {
    hide Inv, NoOrphans, Step, CanHappen, IsClean;
    if es != [] {
      StepKeeps(cfg, s, es[0]);
      RunLeavesNoOrphans(cfg, Step(cfg, s, es[0]), es[1..]);
    }
  }

  // ---- A key that is not registered ----

  predicate DeclaresKey(e: Event, key: string) {
    e.Declare? && ValidateRuntimeKey(e.spec.key) == Some(key)
  }

  lemma StepSparesUnregistered(cfg: Config, s: State, e: Event, key: string)
    requires Inv(s) && CanHappen(s, e) && key !in s.kinds && !DeclaresKey(e, key)
    ensures SameKey(cfg, s, Step(cfg, s, e), key)
  {
    hide R.Remove, R.HandleReconnect, Discovery, StateOf, Held, IsKey, TrimSpace, ValidateRuntimeKey, R.Publish,
         RemoveStale;
    match e
    case Declare(spec) =>
      if Declares(s, spec) {
        var k := ValidateRuntimeKey(spec.key).value;
        DiscoveryPublish(cfg, s.broker, spec.kind, k, spec.discovery);
      }
    case SetState(k, payload) =>
      StatePublish(cfg, s.broker, k, payload);
    case Remove(rawKey) =>
      hide Inv;
      RemoveSparesUnregistered(cfg, s, rawKey, key);
    case Reconcile(keep, order) =>
      hide Inv;
      StaleSparesUnregistered(cfg, s, order, KeepSet(keep), key);
    case Reconnect(order) =>
      ReconnectHeals(cfg, s, order);
    case _ =>
  }

  lemma RemoveSparesUnregistered(cfg: Config, s: State, rawKey: string, key: string)
    requires Inv(s) && key !in s.kinds
    ensures SameKey(cfg, s, R.Remove(cfg, s, rawKey).0, key)
  {
    hide R.Remove, Discovery, StateOf, Held, IsKey, TrimSpace, Inv;
    RemoveOutcome(cfg, s, rawKey);
    if key != TrimSpace(rawKey) {
      RemoveSparesOthers(cfg, s, rawKey, key);
    }
  }

  lemma {:induction false} StaleSparesUnregistered(cfg: Config, s: State, order: seq<string>, keep: set<string>,
                                                   key: string)
    requires Inv(s) && key !in s.kinds
    ensures SameKey(cfg, s, RemoveStale(cfg, s, order, keep).0, key)
    decreases |order|
  {
    hide Inv, Discovery, StateOf, Held, R.Remove;
    if order != [] {
      if order[0] in keep {
        StaleSparesUnregistered(cfg, s, order[1..], keep, key);
      } else {
        RemoveSparesUnregistered(cfg, s, order[0], key);
        RemoveKeepsInv(cfg, s, order[0]);
        StaleSparesUnregistered(cfg, R.Remove(cfg, s, order[0]).0, order[1..], keep, key);
      }
    }
  }

  /**
   * Until it is declared again, no run touches the topics of a key that is not registered, restarts with and without
   * a registry file included: an empty topic stays empty, and an orphaned one stays as it is.
   */
  lemma {:induction false} RunSparesUnregistered(cfg: Config, s: State, es: seq<Event>, key: string)
    requires Inv(s) && key !in s.kinds && IsRun(cfg, s, es) && forall e :: e in es ==> !DeclaresKey(e, key)
    ensures Inv(Run(cfg, s, es)) && SameKey(cfg, s, Run(cfg, s, es), key)
    decreases |es|
  {
    hide Inv, Step, CanHappen, DeclaresKey, Discovery, StateOf, Held;
    if es != [] {
      assert es[0] in es && forall e :: e in es[1..] ==> e in es;
      StepSparesUnregistered(cfg, s, es[0], key);
      StepKeepsInv(cfg, s, es[0]);
      RunSparesUnregistered(cfg, Step(cfg, s, es[0]), es[1..], key);
    }
  }

  /** Once a removal has succeeded, the topics of the key stay empty in every run until the key is declared again. */
  lemma RemovedStaysRemoved(cfg: Config, s: State, rawKey: string, es: seq<Event>)
    requires Inv(s) && NoOrphans(cfg, s) && R.Remove(cfg, s, rawKey).1
    requires IsRun(cfg, R.Remove(cfg, s, rawKey).0, es)
    requires forall e :: e in es ==> !DeclaresKey(e, TrimSpace(rawKey))
    ensures Gone(cfg, Run(cfg, R.Remove(cfg, s, rawKey).0, es), TrimSpace(rawKey))
  {
    hide Run, IsRun, DeclaresKey, Inv, NoOrphans, R.Remove, TrimSpace, Discovery, StateOf, Held;
    var s1, key := R.Remove(cfg, s, rawKey).0, TrimSpace(rawKey);
    RemoveClears(cfg, s, rawKey);
    RemoveKeepsInv(cfg, s, rawKey);
    RunSparesUnregistered(cfg, s1, es, key);
    GoneStays(cfg, s1, Run(cfg, s1, es), key);
  }

  // ---- A registry without a file ----

  /**
   * Without a file a restart orphans everything for good: whatever a topic of a key holds then, it holds in every
   * run until the key is declared again, and every removal of the key succeeds without touching it.
   */
  lemma RestartOrphansForGood(cfg: Config, s: State, es: seq<Event>, key: string)
    requires !cfg.persistent && Inv(s) && IsKey(key)
    requires IsRun(cfg, R.Restarted(cfg, s), es) && forall e :: e in es ==> !DeclaresKey(e, key)
    ensures var s' := Run(cfg, R.Restarted(cfg, s), es);
            && (forall kind ::
                  Held(s'.broker.retained, Discovery(cfg, kind, key)) ==
                  Held(s.broker.retained, Discovery(cfg, kind, key)))
            && Held(s'.broker.retained, StateOf(cfg, key)) == Held(s.broker.retained, StateOf(cfg, key))
            && R.Remove(cfg, s', key) == (s', true)
  {
    hide Discovery, StateOf, Held, TrimSpace, Run, IsRun, DeclaresKey;
    KeysAreTrimmed(key);
    RunSparesUnregistered(cfg, R.Restarted(cfg, s), es, key);
  }

  /** Such a run: declared, then restarted. Removing the key succeeds, and its discovery topic is still set. */
  lemma ForgottenIsOrphaned(cfg: Config, key: string) returns (es: seq<Event>)
    requires !cfg.persistent && IsKey(key)
    ensures IsRun(cfg, Fresh(), es)
    ensures var s := Run(cfg, Fresh(), es);
            && s.kinds == map[] && s.entities == map[] && s.broker.script == []
            && R.Remove(cfg, s, key) == (s, true)
            && Held(s.broker.retained, Discovery(cfg, Sensor, key)) == Some("{}")
  {
    hide TrimSpace, ValidateRuntimeKey, Discovery, StateOf, IsKey, Availability, R.Publish, Held;
    ValidatedIsKey(key);
    KeysAreTrimmed(key);
    TightIsTrimmed("x");
    es := [Declare(Spec(key, Sensor, "x", "{}")), Restart];
    PublishHolds(Fresh().broker, Discovery(cfg, Sensor, key), "{}");
    var s1 := Step(cfg, Fresh(), es[0]);
    RunOfTwo(cfg, Fresh(), es);
    KeyIsNotBlank(key);
  }

  lemma KeyIsNotBlank(key: string)
    requires IsKey(key)
    ensures key != ""
  {
  }

  lemma RunOfTwo(cfg: Config, s: State, es: seq<Event>)
    requires |es| == 2 && CanHappen(s, es[0]) && CanHappen(Step(cfg, s, es[0]), es[1])
    ensures IsRun(cfg, s, es) && Run(cfg, s, es) == Step(cfg, Step(cfg, s, es[0]), es[1])
  {
    hide Step, CanHappen;
    var s1 := Step(cfg, s, es[0]);
    var s2 := Step(cfg, s1, es[1]);
    assert es[1..][0] == es[1] && es[1..][1..] == [];
    assert IsRun(cfg, s2, es[1..][1..]) && Run(cfg, s2, es[1..][1..]) == s2;
    assert IsRun(cfg, s1, es[1..]) && Run(cfg, s1, es[1..]) == s2;
  }

  // ---- A key that changes its kind ----

  function Fresh(): State {
    State(map[], map[], map[], Broker(map[], []))
  }

  /**
   * What goes wrong without that condition: after a restart a registered sensor is declared as a switch and then
   * removed. All publishes succeed, nothing is registered any more, and the sensor's discovery topic is still set.
   */
  lemma ChangedKindIsOrphaned(cfg: Config, key: string) returns (es: seq<Event>)
    requires cfg.persistent && IsKey(key)
    ensures IsRun(cfg, Fresh(), es)
    ensures var s := Run(cfg, Fresh(), es);
            && s.kinds == map[] && s.entities == map[] && s.broker.script == []
            && Held(s.broker.retained, Discovery(cfg, Sensor, key)) == Some("{}")
  {
    hide TrimSpace, ValidateRuntimeKey, Discovery, StateOf, IsKey, Availability, R.Publish, Held;
    ValidatedIsKey(key);
    KeysAreTrimmed(key);
    TightIsTrimmed("x");
    var sensor, switch := Spec(key, Sensor, "x", "{}"), Spec(key, Switch, "x", "{}");
    es := [Declare(sensor), Restart, Declare(switch), Remove(key)];
    var s1 := Step(cfg, Fresh(), es[0]);
    PublishHolds(Fresh().broker, Discovery(cfg, Sensor, key), "{}");
    var s2 := Step(cfg, s1, es[1]);
    PublishHolds(s2.broker, Discovery(cfg, Switch, key), "{}");
    DiscoveryPublish(cfg, s2.broker, Switch, key, "{}");
    var s3 := Step(cfg, s2, es[2]);
    PublishHolds(s3.broker, Discovery(cfg, Switch, key), "");
    DiscoveryPublish(cfg, s3.broker, Switch, key, "");
    var b := R.Publish(s3.broker, Discovery(cfg, Switch, key), "").0;
    PublishHolds(b, StateOf(cfg, key), "");
    StatePublish(cfg, b, key, "");
    var s4 := Step(cfg, s3, es[3]);
    assert s4.kinds == map[] && s4.entities == map[];
    RunOfFour(cfg, Fresh(), es);
  }

  lemma RunOfFour(cfg: Config, s: State, es: seq<Event>)
    requires |es| == 4 && CanHappen(s, es[0])
    requires var s1 := Step(cfg, s, es[0]); CanHappen(s1, es[1])
    requires var s2 := Step(cfg, Step(cfg, s, es[0]), es[1]); CanHappen(s2, es[2])
    requires var s3 := Step(cfg, Step(cfg, Step(cfg, s, es[0]), es[1]), es[2]); CanHappen(s3, es[3])
    ensures IsRun(cfg, s, es)
    ensures Run(cfg, s, es) == Step(cfg, Step(cfg, Step(cfg, Step(cfg, s, es[0]), es[1]), es[2]), es[3])
  {
    hide Step, CanHappen;
    var s1 := Step(cfg, s, es[0]);
    var s2 := Step(cfg, s1, es[1]);
    var s3 := Step(cfg, s2, es[2]);
    var s4 := Step(cfg, s3, es[3]);
    var r1, r2, r3, r4 := es[1..], es[1..][1..], es[1..][1..][1..], es[1..][1..][1..][1..];
    assert r4 == [] && r3[0] == es[3] && r2[0] == es[2] && r1[0] == es[1];
    assert IsRun(cfg, s4, r4) && Run(cfg, s4, r4) == s4;
    assert IsRun(cfg, s3, r3) && Run(cfg, s3, r3) == s4;
    assert IsRun(cfg, s2, r2) && Run(cfg, s2, r2) == s4;
    assert IsRun(cfg, s1, r1) && Run(cfg, s1, r1) == s4;
  }
}
