/**
 * The runtime that keeps retained MQTT topics in step with the declared entities (runtime.go, runtime_registry.go).
 * Every operation is one step; each publish of it can fail, with or without the broker having taken the message.
 */
module EntityRuntime {
  import opened Options
  import opened Outcomes
  import opened Topics

  type Payload = string
  /** What the command callback of a reminder's switch captures. */
  datatype Handler = Handler(reminder: string, owner: string)

  /** persistent: the registry has a file, whose writes are taken to succeed. */
  datatype Config = Config(discoveryPrefix: string, appPrefix: string, persistent: bool)

  datatype Entity = Entity(key: string, kind: Kind, discovery: Payload, lastState: Payload, hasState: bool)

  /** script: the outcomes of the coming publishes; once it is used up they are all acknowledged. */
  datatype Broker = Broker(retained: map<string, Payload>, script: seq<Outcome>) {
    function NextOutcome(): Outcome {
      if script == [] then Acked else script[0]
    }
  }

  datatype State = State(
    entities: map<string, Entity>, kinds: map<string, Kind>, handlers: map<string, Handler>, broker: Broker)

  function Discovery(cfg: Config, kind: Kind, key: string): string {
    DiscoveryTopic(cfg.discoveryPrefix, kind, key)
  }

  function StateOf(cfg: Config, key: string): string {
    StateTopic(cfg.appPrefix, key)
  }

  function Availability(cfg: Config): string {
    AvailabilityTopic(cfg.appPrefix)
  }

  // ---- The broker ----

  /** MQTT 3.1.1, section 3.3.1.3: a retained message replaces the last one, an empty payload clears the topic. */
  function Put(retained: map<string, Payload>, topic: string, payload: Payload): map<string, Payload> {
    if payload == "" then retained - {topic} else retained[topic := payload]
  }

  /** What a new subscriber would be sent, if anything. */
  function Held(retained: map<string, Payload>, topic: string): Option<Payload> {
    if topic in retained then Some(retained[topic]) else None
  }

  /** What a topic holds after this payload was published. */
  function Kept(payload: Payload): Option<Payload> {
    if payload == "" then None else Some(payload)
  }

  function Publish(b: Broker, topic: string, payload: Payload): (Broker, bool) {
    var rest := if b.script == [] then [] else b.script[1..];
    match b.NextOutcome()
    case Acked => (Broker(Put(b.retained, topic, payload), rest), true)
    case Lost => (Broker(b.retained, rest), false)
    case Unacked => (Broker(Put(b.retained, topic, payload), rest), false)
  }

  // ---- The operations ----

  datatype Spec = Spec(key: string, kind: Kind, name: string, discovery: Payload)

  /** Switch, NumberSensor, TextSensor and BinarySensor: the key of the declared entity, or None on an error. */
  function Declare(cfg: Config, s: State, spec: Spec): (State, Option<string>) {
    var valid := ValidateRuntimeKey(spec.key);
    if TrimSpace(spec.name) == "" || valid.None? then (s, None)
    else
      var key := valid.value;
      if key in s.entities && s.entities[key].kind != spec.kind then (s, None)
      else
        var entity := if key in s.entities then s.entities[key].(discovery := spec.discovery)
                      else Entity(key, spec.kind, spec.discovery, "", false);
        var (b, ok) := Publish(s.broker, Discovery(cfg, spec.kind, key), spec.discovery);
        if !ok then (s.(broker := b), None)
        else (s.(entities := s.entities[key := entity], kinds := s.kinds[key := spec.kind], broker := b), Some(key))
  }

  /** The entity remembers the state before it is published. */
  function SetState(cfg: Config, s: State, key: string, payload: Payload): (State, bool) {
    if key !in s.entities then (s, false)
    else
      var entity := s.entities[key].(lastState := payload, hasState := true);
      var (b, ok) := Publish(s.broker, StateOf(cfg, key), payload);
      (s.(entities := s.entities[key := entity], broker := b), ok)
  }

  function OnCommand(s: State, key: string, handler: Handler): (State, bool) {
    if key !in s.entities || s.entities[key].kind != Switch then (s, false)
    else (s.(handlers := s.handlers[key := handler]), true)
  }

  function Forget(s: State, key: string): State {
    s.(entities := s.entities - {key}, kinds := s.kinds - {key}, handlers := s.handlers - {key})
  }

  /** Clears the two topics of a key, then forgets it; an undeclared key is looked up in the registry. */
  function Remove(cfg: Config, s: State, rawKey: string): (State, bool) {
    var key := TrimSpace(rawKey);
    if key == "" then (s, false)
    else if key !in s.entities && key !in s.kinds then (s, true)
    else
      var kind := if key in s.entities then s.entities[key].kind else s.kinds[key];
      var (b, ok) := Publish(s.broker, Discovery(cfg, kind, key), "");
      if !ok then (s.(broker := b), false)
      else
        var (b', ok') := Publish(b, StateOf(cfg, key), "");
        if !ok' then (s.(broker := b'), false) else (Forget(s.(broker := b'), key), true)
  }

  function KeepSet(keep: seq<string>): set<string> {
    set k | k in keep && TrimSpace(k) != "" :: TrimSpace(k)
  }

  function RemoveStale(cfg: Config, s: State, order: seq<string>, keep: set<string>): (State, bool)
    decreases |order|
  {
    if order == [] then (s, true)
    else if order[0] in keep then RemoveStale(cfg, s, order[1..], keep)
    else
      var (s', ok) := Remove(cfg, s, order[0]);
      if ok then RemoveStale(cfg, s', order[1..], keep) else (s', false)
  }

  /** order: the registered keys in the order the map gives them. */
  function Reconcile(cfg: Config, s: State, keep: seq<string>, order: seq<string>): (State, bool) {
    if !cfg.persistent then (s, false) else RemoveStale(cfg, s, order, KeepSet(keep))
  }

  function Republish(cfg: Config, b: Broker, e: Entity): (Broker, bool) {
    var (b', ok) := Publish(b, Discovery(cfg, e.kind, e.key), e.discovery);
    if ok && e.hasState then Publish(b', StateOf(cfg, e.key), e.lastState) else (b', ok)
  }

  function RepublishAll(cfg: Config, b: Broker, due: seq<Entity>): (Broker, bool)
    decreases |due|
  {
    if due == [] then (b, true)
    else
      var (b', ok) := Republish(cfg, b, due[0]);
      if ok then RepublishAll(cfg, b', due[1..]) else (b', false)
  }

  function EntitiesOf(entities: map<string, Entity>, order: seq<string>): (due: seq<Entity>)
    requires forall k :: k in order ==> k in entities
    ensures |due| == |order| && forall i :: 0 <= i < |order| ==> due[i] == entities[order[i]]
  {
    seq(|order|, i requires 0 <= i < |order| => entities[order[i]])
  }

  /** order: the declared keys in the order the map gives them. */
  function HandleReconnect(cfg: Config, s: State, order: seq<string>): (State, bool)
    requires forall k :: k in order ==> k in s.entities
  {
    var (b, ok) := Publish(s.broker, Availability(cfg), "online");
    if !ok then (s.(broker := b), false)
    else
      var (b', ok') := RepublishAll(cfg, b, EntitiesOf(s.entities, order));
      (s.(broker := b'), ok')
  }

  /** A new process: the broker keeps its topics, and the registry its keys if it has a file. */
  function Restarted(cfg: Config, s: State): State {
    State(map[], if cfg.persistent then s.kinds else map[], map[], s.broker)
  }

  function ToUpper(s: string): string {
    seq(|s|, i requires 0 <= i < |s| => if 'a' <= s[i] <= 'z' then s[i] - 'a' + 'A' else s[i])
  }

  function BoolPayload(on: bool): Payload {
    if on then "ON" else "OFF"
  }

  function ParseBoolPayload(payload: Payload): Option<bool> {
    var text := TrimSpace(ToUpper(payload));
    if text == "ON" then Some(true) else if text == "OFF" then Some(false) else None
  }

  /** In any case and with white space around. */
  predicate SaysOn(payload: Payload) {
    TrimSpace(payload) in ["ON", "On", "oN", "on"]
  }

  predicate SaysOff(payload: Payload) {
    TrimSpace(payload) in ["OFF", "OFf", "OfF", "Off", "oFF", "oFf", "ofF", "off"]
  }

  lemma UpperCaseIsTrimmed(s: string)
    ensures TrimSpace(ToUpper(s)) == ToUpper(TrimSpace(s))
  {
    var a, b := TrimCuts(s);
    var t := TrimSpace(s);
    TightIsTrimmed(t);
    assert Tight(ToUpper(t)) && AllSpace(ToUpper(a)) && AllSpace(ToUpper(b)) by {
      hide TrimSpace;
      assert Tight(t);
    }
    assert ToUpper(s) == ToUpper(a) + ToUpper(t) + ToUpper(b);
    TrimIsUnique(ToUpper(a), ToUpper(t), ToUpper(b));
  }

  lemma UpperCaseOn(t: string)
    ensures ToUpper(t) == "ON" <==> t in ["ON", "On", "oN", "on"]
  {
    if ToUpper(t) == "ON" {
      assert ToUpper(t)[0] == 'O' && ToUpper(t)[1] == 'N' && t == [t[0], t[1]];
    }
    if t in ["ON", "On", "oN", "on"] {
      assert ToUpper(t) == [ToUpper(t)[0], ToUpper(t)[1]];
    }
  }

  lemma UpperCaseOff(t: string)
    ensures ToUpper(t) == "OFF" <==> t in ["OFF", "OFf", "OfF", "Off", "oFF", "oFf", "ofF", "off"]
  {
    if ToUpper(t) == "OFF" {
      assert ToUpper(t)[0] == 'O' && ToUpper(t)[1] == 'F' && ToUpper(t)[2] == 'F' && t == [t[0], t[1], t[2]];
    }
    if t in ["OFF", "OFf", "OfF", "Off", "oFF", "oFf", "ofF", "off"] {
      assert ToUpper(t) == [ToUpper(t)[0], ToUpper(t)[1], ToUpper(t)[2]];
    }
  }

  lemma ParsedBool(payload: Payload)
    ensures ParseBoolPayload(payload) ==
            if SaysOn(payload) then Some(true) else if SaysOff(payload) then Some(false) else None
  {
    hide TrimSpace, ToUpper;
    UpperCaseIsTrimmed(payload);
    UpperCaseOn(TrimSpace(payload));
    UpperCaseOff(TrimSpace(payload));
  }

  /** The callback that handleCommand starts, and its argument. */
  function HandleCommand(cfg: Config, s: State, topic: string, payload: Payload): Option<(Handler, bool)> {
    var key := ParseRuntimeCommandTopic(cfg.appPrefix, topic);
    var desired := ParseBoolPayload(payload);
    if key.None? || desired.None? || key.value !in s.handlers then None
    else Some((s.handlers[key.value], desired.value))
  }

  // ---- Topics of different entities do not interfere ----

  lemma Apart(cfg: Config)
    ensures forall kind1, kind2, k1, k2 :: Discovery(cfg, kind1, k1) == Discovery(cfg, kind2, k2) ==>
                                             kind1 == kind2 && k1 == k2
    ensures forall k1, k2 :: StateOf(cfg, k1) == StateOf(cfg, k2) ==> k1 == k2
    ensures forall kind, k1, k2 :: Discovery(cfg, kind, k1) != StateOf(cfg, k2)
    ensures forall kind, k :: Discovery(cfg, kind, k) != Availability(cfg)
    ensures forall k :: StateOf(cfg, k) != Availability(cfg)
  {
    hide DiscoveryTopic, StateTopic, AvailabilityTopic;
    forall kind1, kind2, k1, k2
      ensures Discovery(cfg, kind1, k1) == Discovery(cfg, kind2, k2) ==> kind1 == kind2 && k1 == k2
    {
      TopicsAreInjective(cfg.discoveryPrefix, cfg.appPrefix, kind1, kind2, k1, k2);
    }
    forall k1, k2 ensures StateOf(cfg, k1) == StateOf(cfg, k2) ==> k1 == k2 {
      TopicsAreInjective(cfg.discoveryPrefix, cfg.appPrefix, Switch, Switch, k1, k2);
    }
    forall kind, k1, k2 ensures Discovery(cfg, kind, k1) != StateOf(cfg, k2) {
      TopicsAreDisjoint(cfg.discoveryPrefix, cfg.appPrefix, kind, k1, k2);
    }
    forall kind, k ensures Discovery(cfg, kind, k) != Availability(cfg) {
      TopicsAreDisjoint(cfg.discoveryPrefix, cfg.appPrefix, kind, k, k);
    }
    forall k ensures StateOf(cfg, k) != Availability(cfg) {
      TopicsAreDisjoint(cfg.discoveryPrefix, cfg.appPrefix, Switch, k, k);
    }
  }

  /** A publish changes its own topic at most, and sets it to the payload when it succeeds. */
  lemma PublishHolds(b: Broker, topic: string, payload: Payload)
    ensures var (b', ok) := Publish(b, topic, payload);
            && (forall t :: t != topic ==> Held(b'.retained, t) == Held(b.retained, t))
            && Held(b'.retained, topic) == (if b.NextOutcome() == Lost then Held(b.retained, topic) else Kept(payload))
            && (ok <==> b.NextOutcome() == Acked)
            && (b.NextOutcome() == Lost ==> b'.retained == b.retained)
            && (b.script == [] ==> ok && b'.script == [])
  {
  }

  /** A publish on a state topic leaves all other entity topics alone. */
  lemma StatePublish(cfg: Config, b: Broker, key: string, payload: Payload)
    ensures var b' := Publish(b, StateOf(cfg, key), payload).0;
            && (forall kind, k :: Held(b'.retained, Discovery(cfg, kind, k)) == Held(b.retained, Discovery(cfg, kind, k)))
            && (forall k :: k != key ==> Held(b'.retained, StateOf(cfg, k)) == Held(b.retained, StateOf(cfg, k)))
            && Held(b'.retained, Availability(cfg)) == Held(b.retained, Availability(cfg))
  {
    hide Discovery, StateOf, Availability, Publish, Held;
    Apart(cfg);
    PublishHolds(b, StateOf(cfg, key), payload);
  }

  /** So does one on a discovery topic. */
  lemma DiscoveryPublish(cfg: Config, b: Broker, kind: Kind, key: string, payload: Payload)
    ensures var b' := Publish(b, Discovery(cfg, kind, key), payload).0;
            && (forall kind', k :: kind' != kind || k != key ==>
                  Held(b'.retained, Discovery(cfg, kind', k)) == Held(b.retained, Discovery(cfg, kind', k)))
            && (forall k :: Held(b'.retained, StateOf(cfg, k)) == Held(b.retained, StateOf(cfg, k)))
            && Held(b'.retained, Availability(cfg)) == Held(b.retained, Availability(cfg))
  {
    hide Discovery, StateOf, Availability, Publish, Held;
    Apart(cfg);
    PublishHolds(b, Discovery(cfg, kind, key), payload);
  }

  ghost predicate IsListing(order: seq<string>, keys: set<string>) {
    && (forall i, j :: 0 <= i < j < |order| ==> order[i] != order[j])
    && (forall k :: k in order <==> k in keys)
  }

  // ---- What every operation keeps ----

  /** Entities are registered under their own key and kind; callbacks belong to declared switches. */
  ghost predicate Inv(s: State) {
    && (forall k :: k in s.kinds ==> IsKey(k))
    && (forall k :: k in s.entities ==> k in s.kinds && s.entities[k].key == k && s.entities[k].kind == s.kinds[k])
    && (forall k :: k in s.handlers ==> k in s.entities && s.entities[k].kind == Switch)
  }

  /** Every discovery or state topic that holds something belongs to a registered key and kind. */
  ghost predicate NoOrphans(cfg: Config, s: State) {
    && (forall kind, k :: Held(s.broker.retained, Discovery(cfg, kind, k)).Some? ==> k in s.kinds && s.kinds[k] == kind)
    && (forall k :: Held(s.broker.retained, StateOf(cfg, k)).Some? ==> k in s.kinds)
  }

  /** The broker holds what the entities remember. */
  ghost predicate Mirrors(cfg: Config, s: State) {
    forall k :: k in s.entities ==>
      && Held(s.broker.retained, Discovery(cfg, s.entities[k].kind, k)) == Kept(s.entities[k].discovery)
      && (s.entities[k].hasState ==> Held(s.broker.retained, StateOf(cfg, k)) == Kept(s.entities[k].lastState))
  }

  /** The key is neither declared nor registered, and none of its topics holds anything. */
  ghost predicate Gone(cfg: Config, s: State, key: string) {
    && key !in s.entities && key !in s.kinds && key !in s.handlers
    && (forall kind :: Held(s.broker.retained, Discovery(cfg, kind, key)) == None)
    && Held(s.broker.retained, StateOf(cfg, key)) == None
  }

  // ---- Declare ----

  lemma DeclareKeepsInv(cfg: Config, s: State, spec: Spec)
    requires Inv(s)
    ensures Inv(Declare(cfg, s, spec).0)
    ensures Declare(cfg, s, spec).0.handlers == s.handlers
    ensures s.entities.Keys <= Declare(cfg, s, spec).0.entities.Keys
  {
    hide Publish, TrimSpace, IsKey, ValidateRuntimeKey, Discovery;
    ValidatedIsKey(spec.key);
    ValidKeyIsKey(spec.key);
  }

  /**
   * A declaration that succeeds registers the trimmed key under its kind and remembers the entity with its new
   * discovery payload and the state it had, if any. Any other changes nothing in the process.
   */
  lemma DeclaredAs(cfg: Config, s: State, spec: Spec)
    requires Inv(s)
    ensures var ((s', declared), key) := (Declare(cfg, s, spec), TrimSpace(spec.key));
            if declared.Some? then
              && declared.value == key
              && s'.kinds == s.kinds[key := spec.kind] && s'.handlers == s.handlers
              && s'.entities.Keys == s.entities.Keys + {key}
              && (forall k :: k in s.entities && k != key ==> s'.entities[k] == s.entities[k])
              && s'.entities[key] == (if key in s.entities then s.entities[key].(discovery := spec.discovery)
                                      else Entity(key, spec.kind, spec.discovery, "", false))
              && Held(s'.broker.retained, Discovery(cfg, spec.kind, key)) == Kept(spec.discovery)
            else s' == s.(broker := s'.broker)
  {
    hide TrimSpace, IsKey, Discovery;
  }

  lemma ValidKeyIsKey(raw: string)
    ensures ValidateRuntimeKey(raw).Some? ==> IsKey(ValidateRuntimeKey(raw).value)
  {
    ValidatedIsKey(raw);
  }

  /** The declaration that is accepted locally and then published. */
  predicate Declares(s: State, spec: Spec) {
    && TrimSpace(spec.name) != "" && ValidateRuntimeKey(spec.key).Some?
    && var key := ValidateRuntimeKey(spec.key).value;
       key in s.entities ==> s.entities[key].kind == spec.kind
  }

  /**
   * When a declaration leaves no orphan: unless it reaches the broker under a kind the key is not registered
   * with, either because the reply is lost before the key is registered, or because the old discovery topic
   * still holds something.
   */
  predicate LeavesNoOrphan(cfg: Config, s: State, spec: Spec) {
    Declares(s, spec) && s.broker.NextOutcome() != Lost ==>
      var key := ValidateRuntimeKey(spec.key).value;
      if s.broker.NextOutcome() == Unacked then key in s.kinds && s.kinds[key] == spec.kind
      else key in s.kinds && s.kinds[key] != spec.kind ==>
             Held(s.broker.retained, Discovery(cfg, s.kinds[key], key)) == None
  }

  lemma DeclareOutcome(cfg: Config, s: State, spec: Spec)
    requires Inv(s)
    ensures !Declares(s, spec) ==> Declare(cfg, s, spec) == (s, None)
    ensures Declares(s, spec) ==>
              var key := ValidateRuntimeKey(spec.key).value;
              var (b, ok) := Publish(s.broker, Discovery(cfg, spec.kind, key), spec.discovery);
              var s' := Declare(cfg, s, spec).0;
              && s'.broker == b
              && s'.handlers == s.handlers
              && s'.kinds == (if ok then s.kinds[key := spec.kind] else s.kinds)
              && (if ok then
                    && key in s'.entities && s'.entities == s.entities[key := s'.entities[key]]
                    && s'.entities[key].key == key && s'.entities[key].kind == spec.kind
                    && s'.entities[key].discovery == spec.discovery
                  else s'.entities == s.entities)
              && Declare(cfg, s, spec).1 == if ok then Some(key) else None
  {
    hide TrimSpace, ValidateRuntimeKey, Discovery, Publish, IsKey;
  }

  /** Declaring keeps the broker free of orphans exactly under that condition. */
  lemma DeclareOrphans(cfg: Config, s: State, spec: Spec)
    requires Inv(s) && NoOrphans(cfg, s) && spec.discovery != ""
    ensures NoOrphans(cfg, Declare(cfg, s, spec).0) <==> LeavesNoOrphan(cfg, s, spec)
  {
    hide TrimSpace, ValidateRuntimeKey, Discovery, StateOf, Declare, Inv, Publish, Held, NoOrphans;
    DeclareOutcome(cfg, s, spec);
    if Declares(s, spec) {
      var key, s' := ValidateRuntimeKey(spec.key).value, Declare(cfg, s, spec).0;
      PublishHolds(s.broker, Discovery(cfg, spec.kind, key), spec.discovery);
      DiscoveryPublish(cfg, s.broker, spec.kind, key, spec.discovery);
      if s.broker.NextOutcome() == Lost {
        NothingPublished(cfg, s, s');
      } else {
        DiscoveryHeld(cfg, s, s', spec.kind, key);
      }
    }
  }

  lemma NothingPublished(cfg: Config, s: State, s': State)
    requires NoOrphans(cfg, s) && s'.kinds == s.kinds && s'.broker.retained == s.broker.retained
    ensures NoOrphans(cfg, s')
  {
  }

  /** Two states that differ, as far as topics go, in one discovery topic, which now holds something. */
  lemma DiscoveryHeld(cfg: Config, s: State, s': State, kind: Kind, key: string)
    requires NoOrphans(cfg, s) && (s'.kinds == s.kinds || s'.kinds == s.kinds[key := kind])
    requires Held(s'.broker.retained, Discovery(cfg, kind, key)).Some?
    requires forall kind', k :: kind' != kind || k != key ==>
               Held(s'.broker.retained, Discovery(cfg, kind', k)) == Held(s.broker.retained, Discovery(cfg, kind', k))
    requires forall k :: Held(s'.broker.retained, StateOf(cfg, k)) == Held(s.broker.retained, StateOf(cfg, k))
    ensures s'.kinds == s.kinds ==> (NoOrphans(cfg, s') <==> key in s.kinds && s.kinds[key] == kind)
    ensures s'.kinds == s.kinds[key := kind] ==>
              (NoOrphans(cfg, s') <==>
                (key in s.kinds && s.kinds[key] != kind ==>
                   Held(s.broker.retained, Discovery(cfg, s.kinds[key], key)) == None))
  {
    hide Discovery, StateOf, Held;
  }

  lemma DeclareMirrors(cfg: Config, s: State, spec: Spec)
    requires Inv(s) && Mirrors(cfg, s) && s.broker.script == []
    ensures Mirrors(cfg, Declare(cfg, s, spec).0) && Declare(cfg, s, spec).0.broker.script == []
    ensures Declares(s, spec) ==> Declare(cfg, s, spec).1 == ValidateRuntimeKey(spec.key)
  {
    hide TrimSpace, ValidateRuntimeKey, Discovery, StateOf, IsKey, Publish, Held;
    if Declares(s, spec) {
      var key := ValidateRuntimeKey(spec.key).value;
      PublishHolds(s.broker, Discovery(cfg, spec.kind, key), spec.discovery);
      DiscoveryPublish(cfg, s.broker, spec.kind, key, spec.discovery);
    }
  }

  // ---- SetState ----

  lemma SetStateKeeps(cfg: Config, s: State, key: string, payload: Payload)
    requires Inv(s)
    ensures Inv(SetState(cfg, s, key, payload).0)
    ensures NoOrphans(cfg, s) ==> NoOrphans(cfg, SetState(cfg, s, key, payload).0)
  {
    hide Discovery, StateOf, IsKey, Publish, Held;
    StatePublish(cfg, s.broker, key, payload);
  }

  lemma SetStateMirrors(cfg: Config, s: State, key: string, payload: Payload)
    requires Inv(s) && Mirrors(cfg, s) && s.broker.script == []
    ensures Mirrors(cfg, SetState(cfg, s, key, payload).0) && SetState(cfg, s, key, payload).0.broker.script == []
  {
    hide Discovery, StateOf, IsKey, Publish, Held;
    PublishHolds(s.broker, StateOf(cfg, key), payload);
    StatePublish(cfg, s.broker, key, payload);
  }

  // ---- Remove ----

  lemma RemoveKeeps(cfg: Config, s: State, rawKey: string)
    requires Inv(s)
    ensures Inv(Remove(cfg, s, rawKey).0)
    ensures NoOrphans(cfg, s) ==> NoOrphans(cfg, Remove(cfg, s, rawKey).0)
  {
    hide Discovery, StateOf, IsKey, Publish, Held, TrimSpace, Remove;
    RemoveOutcome(cfg, s, rawKey);
    RemoveTopics(cfg, s, rawKey);
    if Remove(cfg, s, rawKey).1 && TrimSpace(rawKey) in s.kinds {
      RemoveClearsRegistered(cfg, s, rawKey);
    }
  }

  lemma RemoveMirrors(cfg: Config, s: State, rawKey: string)
    requires Inv(s) && Mirrors(cfg, s) && s.broker.script == []
    ensures Mirrors(cfg, Remove(cfg, s, rawKey).0) && Remove(cfg, s, rawKey).0.broker.script == []
  {
    hide Discovery, StateOf, Tight, Publish, Held, TrimSpace, Remove;
    RemoveOutcome(cfg, s, rawKey);
    RemoveTopics(cfg, s, rawKey);
  }

  lemma RemoveOutcome(cfg: Config, s: State, rawKey: string)
    requires Inv(s)
    ensures var (s', ok) := Remove(cfg, s, rawKey);
            s' == (if ok then Forget(s, TrimSpace(rawKey)) else s).(broker := s'.broker)
    ensures s.broker.script == [] ==> Remove(cfg, s, rawKey).0.broker.script == []
    ensures s.broker.script == [] ==> (Remove(cfg, s, rawKey).1 <==> TrimSpace(rawKey) != "")
    ensures TrimSpace(rawKey) !in s.kinds ==> Remove(cfg, s, rawKey).0 == s
    ensures TrimSpace(rawKey) == "" ==> !Remove(cfg, s, rawKey).1
  {
    hide Discovery, StateOf, IsKey, Held, TrimSpace;
    var key := TrimSpace(rawKey);
    if key !in s.entities && key !in s.kinds {
      assert Forget(s, key) == s;
    }
  }

  /** The next two publishes are acknowledged. */
  predicate TwoAcked(b: Broker) {
    b.NextOutcome() == Acked && (|b.script| >= 2 ==> b.script[1] == Acked)
  }

  /** A registered key is forgotten exactly if both its topics are cleared and acknowledged. */
  lemma RemoveSucceedsIff(cfg: Config, s: State, rawKey: string)
    requires Inv(s) && TrimSpace(rawKey) in s.kinds
    ensures Remove(cfg, s, rawKey).1 <==> TwoAcked(s.broker)
  {
    hide Discovery, StateOf, Held, TrimSpace, Tight;
  }

  /** A removal leaves the topics of other keys alone, and sets none; it clears the discovery before the state. */
  lemma RemoveTopics(cfg: Config, s: State, rawKey: string)
    requires Inv(s)
    ensures forall kind, k :: k != TrimSpace(rawKey) ==>
              Held(Remove(cfg, s, rawKey).0.broker.retained, Discovery(cfg, kind, k)) ==
              Held(s.broker.retained, Discovery(cfg, kind, k))
    ensures forall k :: k != TrimSpace(rawKey) ==>
              Held(Remove(cfg, s, rawKey).0.broker.retained, StateOf(cfg, k)) == Held(s.broker.retained, StateOf(cfg, k))
    ensures forall t :: Held(Remove(cfg, s, rawKey).0.broker.retained, t).Some? ==> Held(s.broker.retained, t).Some?
    ensures var key, retained := TrimSpace(rawKey), Remove(cfg, s, rawKey).0.broker.retained;
            || Held(retained, StateOf(cfg, key)) == Held(s.broker.retained, StateOf(cfg, key))
            || (key in s.kinds && Held(retained, Discovery(cfg, s.kinds[key], key)) == None)
  {
    hide Discovery, StateOf, IsKey, Publish, Held, TrimSpace;
    var key := TrimSpace(rawKey);
    if key != "" && key in s.kinds {
      var kind, topic := s.kinds[key], Discovery(cfg, s.kinds[key], key);
      var b := Publish(s.broker, topic, "").0;
      PublishHolds(s.broker, topic, "");
      DiscoveryPublish(cfg, s.broker, kind, key, "");
      PublishHolds(b, StateOf(cfg, key), "");
      StatePublish(cfg, b, key, "");
    }
  }

  lemma RemoveClearsRegistered(cfg: Config, s: State, rawKey: string)
    requires Inv(s) && Remove(cfg, s, rawKey).1 && TrimSpace(rawKey) in s.kinds
    ensures var key := TrimSpace(rawKey);
            && Held(Remove(cfg, s, rawKey).0.broker.retained, Discovery(cfg, s.kinds[key], key)) == None
            && Held(Remove(cfg, s, rawKey).0.broker.retained, StateOf(cfg, key)) == None
  {
    hide Discovery, StateOf, IsKey, Publish, Held, TrimSpace;
    var key := TrimSpace(rawKey);
    var kind, topic := s.kinds[key], Discovery(cfg, s.kinds[key], key);
    var b := Publish(s.broker, topic, "").0;
    PublishHolds(s.broker, topic, "");
    PublishHolds(b, StateOf(cfg, key), "");
    StatePublish(cfg, b, key, "");
  }

  /** After a successful removal nothing of the key is left, in the process or on the broker. */
  lemma RemoveClears(cfg: Config, s: State, rawKey: string)
    requires Inv(s) && NoOrphans(cfg, s) && Remove(cfg, s, rawKey).1
    ensures Gone(cfg, Remove(cfg, s, rawKey).0, TrimSpace(rawKey))
  {
    hide Discovery, StateOf, IsKey, Publish, Held, TrimSpace, Remove;
    RemoveOutcome(cfg, s, rawKey);
    RemoveTopics(cfg, s, rawKey);
    if TrimSpace(rawKey) in s.kinds {
      RemoveClearsRegistered(cfg, s, rawKey);
    }
  }
}
