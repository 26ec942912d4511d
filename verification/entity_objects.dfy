/** The transport, the registry and the runtime as objects changed step by step (runtime.go, runtime_registry.go). */
module EntityObjects {
  import opened Options
  import opened Outcomes
  import opened Topics
  import R = EntityRuntime
  import opened EntityRuntime

  /** The connection to the broker, with what the broker retains. */
  class Transport {
    var retained: map<string, Payload>
    var script: seq<Outcome>

    function Value(): Broker
      reads this
    {
      Broker(retained, script)
    }

    method Publish(topic: string, payload: Payload) returns (ok: bool)
      modifies this
      ensures (Value(), ok) == R.Publish(old(Value()), topic, payload)
    {
      var outcome := Acked;
      if script != [] {
        outcome, script := script[0], script[1..];
      }
      if outcome != Lost {
        if payload == "" {
          retained := retained - {topic};
        } else {
          retained := retained[topic := payload];
        }
      }
      ok := outcome == Acked;
    }
  }

  class Registry {
    const persistent: bool
    var kinds: map<string, Kind>

    method Upsert(key: string, kind: Kind)
      modifies this
      ensures kinds == old(kinds)[key := kind]
    {
      kinds := kinds[key := kind];
    }

    method Remove(key: string)
      modifies this
      ensures kinds == old(kinds) - {key}
    {
      kinds := kinds - {key};
    }

    function Kind(key: string): Option<Kind>
      reads this
    {
      if key in kinds then Some(kinds[key]) else None
    }
  }

  /** The keys of a map in the order a loop over it meets them. */
  method Keys<T>(m: map<string, T>) returns (order: seq<string>)
    ensures IsListing(order, m.Keys)
  {
    order := [];
    var todo := m.Keys;
    while todo != {}
      invariant todo <= m.Keys
      invariant forall k :: k in order <==> k in m.Keys && k !in todo
      invariant forall i, j :: 0 <= i < j < |order| ==> order[i] != order[j]
      decreases todo
    {
      var k :| k in todo;
      order, todo := order + [k], todo - {k};
    }
  }

  class Runtime {
    const discoveryPrefix: string
    const appPrefix: string
    const mqtt: Transport
    const registry: Registry
    var entities: map<string, Entity>
    var switchHandlers: map<string, Handler>

    constructor (cfg: Config, mqtt: Transport, registry: Registry)
      requires registry.persistent == cfg.persistent
      ensures this.mqtt == mqtt && this.registry == registry && Settings() == cfg
      ensures Value() == State(map[], registry.kinds, map[], mqtt.Value())
    {
      discoveryPrefix, appPrefix := cfg.discoveryPrefix, cfg.appPrefix;
      this.mqtt, this.registry := mqtt, registry;
      entities, switchHandlers := map[], map[];
    }

    function Settings(): Config {
      Config(discoveryPrefix, appPrefix, registry.persistent)
    }

    function Value(): State
      reads this, mqtt, registry
    {
      State(entities, registry.kinds, switchHandlers, mqtt.Value())
    }

    /** validateCommonSpec and declare; the payload of the discovery topic comes with the specification. */
    method Declare(spec: Spec) returns (declared: Option<string>)
      modifies this, mqtt, registry
      ensures (Value(), declared) == R.Declare(Settings(), old(Value()), spec)
    {
      declared := None;
      if TrimSpace(spec.name) == "" {
        return;
      }
      var valid := ValidateRuntimeKey(spec.key);
      if valid.None? {
        return;
      }
      var key := valid.value;
      var entity := Entity(key, spec.kind, spec.discovery, "", false);
      if key in entities {
        var existing := entities[key];
        if existing.kind != spec.kind {
          return;
        }
        entity := existing.(discovery := spec.discovery);
      }
      var ok := mqtt.Publish(DiscoveryTopic(discoveryPrefix, spec.kind, key), spec.discovery);
      if !ok {
        return;
      }
      registry.Upsert(key, spec.kind);
      entities := entities[key := entity];
      declared := Some(key);
    }

    method SetState(key: string, payload: Payload) returns (ok: bool)
      modifies this, mqtt
      ensures (Value(), ok) == R.SetState(Settings(), old(Value()), key, payload)
    {
      if key !in entities {
        return false;
      }
      entities := entities[key := entities[key].(lastState := payload, hasState := true)];
      ok := mqtt.Publish(StateTopic(appPrefix, key), payload);
    }

    method OnCommand(key: string, handler: Handler) returns (ok: bool)
      modifies this
      ensures (Value(), ok) == R.OnCommand(old(Value()), key, handler)
    {
      if key !in entities || entities[key].kind != Switch {
        return false;
      }
      switchHandlers := switchHandlers[key := handler];
      ok := true;
    }

    method Remove(rawKey: string) returns (ok: bool)
      modifies this, mqtt, registry
      ensures (Value(), ok) == R.Remove(Settings(), old(Value()), rawKey)
    {
      hide TrimSpace, DiscoveryTopic, StateTopic;
      var key := TrimSpace(rawKey);
      if key == "" {
        return false;
      }
      var kind := registry.Kind(key);
      if key in entities {
        kind := Some(entities[key].kind);
      } else if kind.None? {
        return true;
      }
      ok := mqtt.Publish(DiscoveryTopic(discoveryPrefix, kind.value, key), "");
      if !ok {
        return;
      }
      ok := mqtt.Publish(StateTopic(appPrefix, key), "");
      if !ok {
        return;
      }
      registry.Remove(key);
      entities, switchHandlers := entities - {key}, switchHandlers - {key};
    }

    method Reconcile(keep: seq<string>) returns (ok: bool, ghost order: seq<string>)
      modifies this, mqtt, registry
      ensures IsListing(order, old(registry.kinds).Keys)
      ensures (Value(), ok) == R.Reconcile(Settings(), old(Value()), keep, order)
    {
      hide TrimSpace, R.Remove;
      var keys := Keys(registry.kinds);
      order, ok := keys, registry.persistent;
      if !ok {
        return;
      }
      var keepSet := CollectKeys(keep);
      for i := 0 to |keys|
        invariant RemoveStale(Settings(), old(Value()), keys, keepSet) ==
                  RemoveStale(Settings(), Value(), keys[i..], keepSet)
      {
        assert keys[i..][1..] == keys[i + 1..];
        if keys[i] !in keepSet {
          ok := Remove(keys[i]);
          if !ok {
            return;
          }
        }
      }
    }

    method CollectKeys(keep: seq<string>) returns (keepSet: set<string>)
      ensures keepSet == KeepSet(keep)
    {
      hide TrimSpace;
      keepSet := {};
      for i := 0 to |keep|
        invariant keepSet == set k | k in keep[..i] && TrimSpace(k) != "" :: TrimSpace(k)
      {
        assert forall k :: k in keep[..i + 1] <==> k in keep[..i] || k == keep[i];
        var key := TrimSpace(keep[i]);
        if key != "" {
          keepSet := keepSet + {key};
        }
      }
      assert keep[..|keep|] == keep;
    }

    method HandleReconnect() returns (ok: bool, ghost order: seq<string>)
      modifies mqtt
      ensures IsListing(order, entities.Keys) && forall k :: k in order ==> k in entities
      ensures (Value(), ok) == R.HandleReconnect(Settings(), old(Value()), order)
    {
      var keys := Keys(entities);
      order := keys;
      ok := mqtt.Publish(AvailabilityTopic(appPrefix), "online");
      if !ok {
        return;
      }
      ghost var online := mqtt.Value();
      var due := EntitiesOf(entities, keys);
      for i := 0 to |due|
        invariant RepublishAll(Settings(), online, due) == RepublishAll(Settings(), mqtt.Value(), due[i..])
      {
        assert due[i..][1..] == due[i + 1..];
        ok := mqtt.Publish(DiscoveryTopic(discoveryPrefix, due[i].kind, due[i].key), due[i].discovery);
        if ok && due[i].hasState {
          ok := mqtt.Publish(StateTopic(appPrefix, due[i].key), due[i].lastState);
        }
        if !ok {
          return;
        }
      }
    }
  }
}
