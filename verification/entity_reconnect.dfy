/** Reconnecting, reconciling and dispatching commands (runtime.go): what they do to the retained topics. */
module EntityReconnect {
  import opened Options
  import opened Outcomes
  import opened Topics
  import opened EntityRuntime

  // ---- Nothing is published after a failure ----

  /** The first n outcomes were used up: all acknowledged, except the last one after a failure. */
  ghost predicate Used(script: seq<Outcome>, rest: seq<Outcome>, ok: bool, n: nat) {
    && n <= |script| && rest == script[n..]
    && (if ok then AllAcked(script[..n]) else n > 0 && AllAcked(script[..n - 1]) && script[n - 1] != Acked)
  }

  ghost predicate AllAcked(outcomes: seq<Outcome>) {
    forall o :: o in outcomes ==> o == Acked
  }

  ghost predicate PublishedInTurn(b: Broker, b': Broker, ok: bool) {
    exists n: nat :: Used(b.script, b'.script, ok, n)
  }

  lemma PublishesOnce(b: Broker, topic: string, payload: Payload)
    ensures PublishedInTurn(b, Publish(b, topic, payload).0, Publish(b, topic, payload).1)
    ensures Held(Publish(b, topic, payload).0.retained, topic) == Kept(payload)
            || Publish(b, topic, payload).0.retained == b.retained
  {
    hide PublishedInTurn;
    if b.script == [] {
      UsedSome(b, Publish(b, topic, payload).0, true, 0);
    } else {
      UsedSome(b, Publish(b, topic, payload).0, b.script[0] == Acked, 1);
    }
  }

  lemma UsedSome(b: Broker, b': Broker, ok: bool, n: nat)
    requires Used(b.script, b'.script, ok, n)
    ensures PublishedInTurn(b, b', ok)
  {
  }

  lemma GoesOn(b: Broker, b1: Broker, b2: Broker, ok: bool)
    requires PublishedInTurn(b, b1, true) && PublishedInTurn(b1, b2, ok)
    ensures PublishedInTurn(b, b2, ok)
  {
    hide Used;
    var n: nat :| Used(b.script, b1.script, true, n);
    var m: nat :| Used(b1.script, b2.script, ok, m);
    UsedThenUsed(b.script, b1.script, b2.script, ok, n, m);
  }

  lemma UsedThenUsed(script: seq<Outcome>, mid: seq<Outcome>, rest: seq<Outcome>, ok: bool, n: nat, m: nat)
    requires Used(script, mid, true, n) && Used(mid, rest, ok, m)
    ensures Used(script, rest, ok, n + m)
  {
    hide AllAcked;
    assert script[..n + m] == script[..n] + mid[..m];
    if !ok {
      assert script[..n + m - 1] == script[..n] + mid[..m - 1];
      AllAckedTogether(script[..n], mid[..m - 1]);
    } else {
      AllAckedTogether(script[..n], mid[..m]);
    }
  }

  lemma AllAckedTogether(a: seq<Outcome>, b: seq<Outcome>)
    requires AllAcked(a) && AllAcked(b)
    ensures AllAcked(a + b)
  {
  }

  lemma RepublishesOneInTurn(cfg: Config, b: Broker, e: Entity)
    ensures PublishedInTurn(b, Republish(cfg, b, e).0, Republish(cfg, b, e).1)
  {
    hide Publish, PublishedInTurn;
    PublishesOnce(b, Discovery(cfg, e.kind, e.key), e.discovery);
    var (b1, ok) := Publish(b, Discovery(cfg, e.kind, e.key), e.discovery);
    if ok && e.hasState {
      PublishesOnce(b1, StateOf(cfg, e.key), e.lastState);
      var (b2, ok2) := Publish(b1, StateOf(cfg, e.key), e.lastState);
      GoesOn(b, b1, b2, ok2);
    }
  }

  lemma {:induction false} RepublishesInTurn(cfg: Config, b: Broker, due: seq<Entity>)
    ensures PublishedInTurn(b, RepublishAll(cfg, b, due).0, RepublishAll(cfg, b, due).1)
    decreases |due|
  {
    hide Republish;
    if due == [] {
      UsedSome(b, b, true, 0);
    } else {
      RepublishesOneInTurn(cfg, b, due[0]);
      var (b1, ok) := Republish(cfg, b, due[0]);
      if ok {
        RepublishesInTurn(cfg, b1, due[1..]);
        var (b2, ok2) := RepublishAll(cfg, b1, due[1..]);
        GoesOn(b, b1, b2, ok2);
      }
    }
  }

  lemma RemovesOneInTurn(cfg: Config, s: State, rawKey: string)
    requires TrimSpace(rawKey) != ""
    ensures PublishedInTurn(s.broker, Remove(cfg, s, rawKey).0.broker, Remove(cfg, s, rawKey).1)
  {
    var key := TrimSpace(rawKey);
    hide Publish, PublishedInTurn, TrimSpace;
    if key in s.entities || key in s.kinds {
      var kind := if key in s.entities then s.entities[key].kind else s.kinds[key];
      var (b, ok) := Publish(s.broker, Discovery(cfg, kind, key), "");
      PublishesOnce(s.broker, Discovery(cfg, kind, key), "");
      if ok {
        PublishesOnce(b, StateOf(cfg, key), "");
        var (b', ok') := Publish(b, StateOf(cfg, key), "");
        GoesOn(s.broker, b, b', ok');
      }
    } else {
      UsedSome(s.broker, s.broker, true, 0);
    }
  }

  lemma {:induction false} RemovesInTurn(cfg: Config, s: State, order: seq<string>, keep: set<string>)
    requires forall k :: k in order ==> IsKey(k)
    ensures PublishedInTurn(s.broker, RemoveStale(cfg, s, order, keep).0.broker, RemoveStale(cfg, s, order, keep).1)
    decreases |order|
  {
    hide Remove, TrimSpace, IsKey, PublishedInTurn;
    if order == [] {
      UsedSome(s.broker, s.broker, true, 0);
    } else if order[0] in keep {
      RemovesInTurn(cfg, s, order[1..], keep);
    } else {
      KeysAreTrimmed(order[0]);
      RemovesOneInTurn(cfg, s, order[0]);
      var (s1, ok) := Remove(cfg, s, order[0]);
      if ok {
        RemovesInTurn(cfg, s1, order[1..], keep);
        var (s2, ok2) := RemoveStale(cfg, s1, order[1..], keep);
        GoesOn(s.broker, s1.broker, s2.broker, ok2);
      }
    }
  }

  // ---- Reconnecting heals the broker ----

  predicate Distinct(due: seq<Entity>) {
    forall i, j :: 0 <= i < j < |due| ==> due[i].key != due[j].key
  }

  /**
   * Where e's topics stand after republishing: never anything but the old or the remembered value, and the state is
   * republished only after the discovery.
   */
  ghost predicate Refreshed(cfg: Config, before: map<string, Payload>, after: map<string, Payload>, e: Entity, ok: bool) {
    var (disc, state) := (Discovery(cfg, e.kind, e.key), StateOf(cfg, e.key));
    && (Held(after, disc) == Kept(e.discovery) || (!ok && Held(after, disc) == Held(before, disc)))
    && (if e.hasState then Held(after, state) == Kept(e.lastState) || (!ok && Held(after, state) == Held(before, state))
        else Held(after, state) == Held(before, state))
    && (Held(after, state) == Held(before, state) || Held(after, disc) == Kept(e.discovery))
  }

  /** Of the entity topics, only those of these keys under these kinds may differ. */
  ghost predicate OnlyTouches(cfg: Config, before: map<string, Payload>, after: map<string, Payload>,
                              kinds: map<string, Kind>) {
    && (forall kind, k :: !(k in kinds && kinds[k] == kind) ==>
          Held(after, Discovery(cfg, kind, k)) == Held(before, Discovery(cfg, kind, k)))
    && (forall k :: k !in kinds ==> Held(after, StateOf(cfg, k)) == Held(before, StateOf(cfg, k)))
  }

  lemma TouchThenTouch(cfg: Config, before: map<string, Payload>, mid: map<string, Payload>, after: map<string, Payload>,
                       first: map<string, Kind>, second: map<string, Kind>, kinds: map<string, Kind>)
    requires OnlyTouches(cfg, before, mid, first) && OnlyTouches(cfg, mid, after, second)
    requires forall k :: k in first ==> k in kinds && kinds[k] == first[k]
    requires forall k :: k in second ==> k in kinds && kinds[k] == second[k]
    ensures OnlyTouches(cfg, before, after, kinds)
  {
    hide Discovery, StateOf, Held;
  }

  lemma RefreshedLater(cfg: Config, before: map<string, Payload>, mid: map<string, Payload>, after: map<string, Payload>,
                       e: Entity, ok: bool, first: map<string, Kind>)
    requires OnlyTouches(cfg, before, mid, first) && e.key !in first && Refreshed(cfg, mid, after, e, ok)
    ensures Refreshed(cfg, before, after, e, ok)
  {
    hide Discovery, StateOf, Held;
  }

  lemma RefreshedEarlier(cfg: Config, before: map<string, Payload>, mid: map<string, Payload>, after: map<string, Payload>,
                         e: Entity, ok: bool, second: map<string, Kind>)
    requires Refreshed(cfg, before, mid, e, true) && OnlyTouches(cfg, mid, after, second) && e.key !in second
    ensures Refreshed(cfg, before, after, e, ok)
  {
    hide Discovery, StateOf, Held;
  }

  lemma NotReached(cfg: Config, before: map<string, Payload>, after: map<string, Payload>, e: Entity,
                   kinds: map<string, Kind>)
    requires OnlyTouches(cfg, before, after, kinds) && e.key !in kinds
    ensures Refreshed(cfg, before, after, e, false)
  {
    hide Discovery, StateOf, Held;
  }

  lemma RepublishOne(cfg: Config, b: Broker, e: Entity)
    ensures var (b', ok) := Republish(cfg, b, e);
            && Refreshed(cfg, b.retained, b'.retained, e, ok)
            && OnlyTouches(cfg, b.retained, b'.retained, map[e.key := e.kind])
            && Held(b'.retained, Availability(cfg)) == Held(b.retained, Availability(cfg))
            && (b.script == [] ==> ok && b'.script == [])
  {
    hide Discovery, StateOf, Availability, Publish, Held;
    var topic := Discovery(cfg, e.kind, e.key);
    var b' := Publish(b, topic, e.discovery).0;
    PublishHolds(b, topic, e.discovery);
    DiscoveryPublish(cfg, b, e.kind, e.key, e.discovery);
    PublishHolds(b', StateOf(cfg, e.key), e.lastState);
    StatePublish(cfg, b', e.key, e.lastState);
  }

  function KindsOf(due: seq<Entity>): (kinds: map<string, Kind>)
    ensures forall k :: k in kinds <==> exists i :: 0 <= i < |due| && due[i].key == k
    ensures Distinct(due) ==> forall i :: 0 <= i < |due| ==> kinds[due[i].key] == due[i].kind
  {
    if due == [] then map[]
    else
      var rest := KindsOf(due[1..]);
      assert forall i :: 0 < i < |due| ==> due[i] == due[1..][i - 1];
      assert forall i :: 0 <= i < |due| - 1 ==> due[1..][i] == due[i + 1];
      rest[due[0].key := due[0].kind]
  }

  lemma KindsOfRest(due: seq<Entity>)
    requires due != [] && Distinct(due)
    ensures KindsOf(due) == KindsOf(due[1..])[due[0].key := due[0].kind]
    ensures Distinct(due[1..]) && due[0].key !in KindsOf(due[1..])
    ensures forall i :: 1 <= i < |due| ==> due[i].key in KindsOf(due[1..]) && due[i].key != due[0].key
  {
    RestIsDistinct(due);
    hide Distinct;
    var rest := KindsOf(due[1..]);
    forall i | 1 <= i < |due| ensures due[i].key in rest {
      assert due[1..][i - 1] == due[i];
    }
  }

  lemma RestIsDistinct(due: seq<Entity>)
    requires due != [] && Distinct(due)
    ensures Distinct(due[1..])
    ensures forall i :: 1 <= i < |due| ==> due[i].key != due[0].key
    ensures forall i :: 0 <= i < |due[1..]| ==> due[1..][i] == due[i + 1] && due[1..][i].key != due[0].key
  {
    assert forall i :: 0 <= i < |due[1..]| ==> due[1..][i] == due[i + 1];
  }

  lemma {:induction false} RepublishMany(cfg: Config, b: Broker, due: seq<Entity>)
    requires Distinct(due)
    ensures var (b', ok) := RepublishAll(cfg, b, due);
            && (forall i :: 0 <= i < |due| ==> Refreshed(cfg, b.retained, b'.retained, due[i], ok))
            && OnlyTouches(cfg, b.retained, b'.retained, KindsOf(due))
            && Held(b'.retained, Availability(cfg)) == Held(b.retained, Availability(cfg))
            && (b.script == [] ==> ok && b'.script == [])
    decreases |due|
  {
    hide Discovery, StateOf, Availability, Held, Republish, Refreshed, OnlyTouches, KindsOf;
    if due == [] {
      TouchesNothing(cfg, b.retained, KindsOf(due));
    } else {
      var e, rest := due[0], due[1..];
      var (b1, ok1) := Republish(cfg, b, e);
      RepublishOne(cfg, b, e);
      KindsOfRest(due);
      if !ok1 {
        TouchThenTouch(cfg, b.retained, b1.retained, b1.retained, map[e.key := e.kind], map[], KindsOf(due)) by {
          TouchesNothing(cfg, b1.retained, map[]);
        }
        forall i | 1 <= i < |due| ensures Refreshed(cfg, b.retained, b1.retained, due[i], false) {
          NotReached(cfg, b.retained, b1.retained, due[i], map[e.key := e.kind]);
        }
      } else {
        var (b2, ok2) := RepublishAll(cfg, b1, rest);
        RepublishMany(cfg, b1, rest);
        TouchThenTouch(cfg, b.retained, b1.retained, b2.retained, map[e.key := e.kind], KindsOf(rest), KindsOf(due));
        RefreshedEarlier(cfg, b.retained, b1.retained, b2.retained, e, ok2, KindsOf(rest));
        forall i | 1 <= i < |due| ensures Refreshed(cfg, b.retained, b2.retained, due[i], ok2) {
          assert due[i] == rest[i - 1];
          RefreshedLater(cfg, b.retained, b1.retained, b2.retained, due[i], ok2, map[e.key := e.kind]);
        }
      }
    }
  }

  lemma TouchesNothing(cfg: Config, retained: map<string, Payload>, kinds: map<string, Kind>)
    ensures OnlyTouches(cfg, retained, retained, kinds)
  {
  }

  function KindMap(entities: map<string, Entity>): map<string, Kind> {
    map k | k in entities :: entities[k].kind
  }

  lemma ListedKinds(s: State, order: seq<string>)
    requires Inv(s) && IsListing(order, s.entities.Keys) && forall k :: k in order ==> k in s.entities
    ensures var due := EntitiesOf(s.entities, order);
            && Distinct(due) && KindsOf(due) == KindMap(s.entities)
            && forall k :: k in s.entities ==> s.entities[k] in due
  {
    hide KindsOf, IsKey;
    var due := EntitiesOf(s.entities, order);
    forall i | 0 <= i < |due| ensures due[i].key == order[i] && due[i].key in s.entities {
      assert order[i] in order;
    }
    forall k | k in s.entities ensures exists i :: 0 <= i < |due| && due[i] == s.entities[k] && due[i].key == k {
      assert k in order;
      var i :| 0 <= i < |order| && order[i] == k;
      assert due[i] == s.entities[k];
    }
    KindsAreMapped(s.entities, due);
  }

  lemma KindsAreMapped(entities: map<string, Entity>, due: seq<Entity>)
    requires Distinct(due) && forall i :: 0 <= i < |due| ==> due[i].key in entities && due[i] == entities[due[i].key]
    requires forall k :: k in entities ==> exists i :: 0 <= i < |due| && due[i] == entities[k] && due[i].key == k
    ensures KindsOf(due) == KindMap(entities)
  {
    hide KindsOf, Distinct;
    forall k ensures k in KindsOf(due) <==> k in entities {
    }
    forall k | k in entities ensures KindsOf(due)[k] == entities[k].kind {
      var i :| 0 <= i < |due| && due[i] == entities[k] && due[i].key == k;
    }
  }

  /**
   * Whatever the broker held before: once reconnecting has succeeded every declared entity's discovery topic holds
   * its payload and its state topic the remembered state, if it has one. Nothing local changes, and no topic of an
   * undeclared key or kind does. When it fails, each topic holds its old or its remembered value. It is announced as
   * available before anything else, and nothing is published after a failure.
   */
  lemma ReconnectHeals(cfg: Config, s: State, order: seq<string>)
    requires Inv(s) && IsListing(order, s.entities.Keys) && forall k :: k in order ==> k in s.entities
    ensures var (s', ok) := HandleReconnect(cfg, s, order);
            && s' == s.(broker := s'.broker)
            && (forall k :: k in s.entities ==>
                  Refreshed(cfg, s.broker.retained, s'.broker.retained, s.entities[k], ok))
            && OnlyTouches(cfg, s.broker.retained, s'.broker.retained, KindMap(s.entities))
            && (ok ==> Mirrors(cfg, s') && Held(s'.broker.retained, Availability(cfg)) == Some("online"))
            && (Held(s'.broker.retained, Availability(cfg)) == Some("online") || s'.broker.retained == s.broker.retained)
            && PublishedInTurn(s.broker, s'.broker, ok)
            && (s.broker.script == [] ==> ok && s'.broker.script == [])
  {
    PublishesOnce(s.broker, Availability(cfg), "online");
    hide Discovery, StateOf, Availability, Publish, Held, Refreshed, OnlyTouches, RepublishAll, KindsOf, KindMap, Mirrors,
         PublishedInTurn;
    var (b, ok) := Publish(s.broker, Availability(cfg), "online");
    AvailabilityPublish(cfg, s.broker, "online");
    PublishHolds(s.broker, Availability(cfg), "online");
    if !ok {
      TouchThenTouch(cfg, s.broker.retained, b.retained, b.retained, map[], map[], KindMap(s.entities)) by {
        TouchesNothing(cfg, b.retained, map[]);
      }
      forall k | k in s.entities ensures Refreshed(cfg, s.broker.retained, b.retained, s.entities[k], false) {
        NotReached(cfg, s.broker.retained, b.retained, s.entities[k], map[]);
      }
    } else {
      var due := EntitiesOf(s.entities, order);
      ListedKinds(s, order);
      RepublishMany(cfg, b, due);
      var (b', ok') := RepublishAll(cfg, b, due);
      RepublishesInTurn(cfg, b, due);
      GoesOn(s.broker, b, b', ok');
      TouchThenTouch(cfg, s.broker.retained, b.retained, b'.retained, map[], KindMap(s.entities), KindMap(s.entities));
      forall k | k in s.entities ensures Refreshed(cfg, s.broker.retained, b'.retained, s.entities[k], ok') {
        RefreshedLater(cfg, s.broker.retained, b.retained, b'.retained, s.entities[k], ok', map[]);
      }
      if ok' {
        RefreshedMirrors(cfg, s, s.(broker := b'));
      }
    }
  }

  lemma RefreshedMirrors(cfg: Config, s: State, s': State)
    requires Inv(s) && s'.entities == s.entities
    requires forall k :: k in s.entities ==> Refreshed(cfg, s.broker.retained, s'.broker.retained, s.entities[k], true)
    ensures Mirrors(cfg, s')
  {
    hide Discovery, StateOf, Held;
  }

  lemma AvailabilityPublish(cfg: Config, b: Broker, payload: Payload)
    ensures OnlyTouches(cfg, b.retained, Publish(b, Availability(cfg), payload).0.retained, map[])
  {
    hide Discovery, StateOf, Availability, Publish, Held;
    Apart(cfg);
    PublishHolds(b, Availability(cfg), payload);
  }

  /** Reconnecting creates no orphan and changes nothing the process knows. */
  lemma ReconnectKeeps(cfg: Config, s: State, order: seq<string>)
    requires Inv(s) && IsListing(order, s.entities.Keys) && forall k :: k in order ==> k in s.entities
    ensures Inv(HandleReconnect(cfg, s, order).0)
    ensures NoOrphans(cfg, s) ==> NoOrphans(cfg, HandleReconnect(cfg, s, order).0)
  {
    hide Discovery, StateOf, Held, IsKey, HandleReconnect;
    ReconnectHeals(cfg, s, order);
  }

  // ---- Reconciling ----

  /** Nothing of the key has changed, in the process or on the broker. */
  ghost predicate SameKey(cfg: Config, s: State, s': State, key: string) {
    && (key in s'.entities <==> key in s.entities) && (key in s.entities ==> s'.entities[key] == s.entities[key])
    && (key in s'.kinds <==> key in s.kinds) && (key in s.kinds ==> s'.kinds[key] == s.kinds[key])
    && (key in s'.handlers <==> key in s.handlers) && (key in s.handlers ==> s'.handlers[key] == s.handlers[key])
    && (forall kind ::
          Held(s'.broker.retained, Discovery(cfg, kind, key)) == Held(s.broker.retained, Discovery(cfg, kind, key)))
    && Held(s'.broker.retained, StateOf(cfg, key)) == Held(s.broker.retained, StateOf(cfg, key))
  }

  lemma RemoveSparesOthers(cfg: Config, s: State, key: string, other: string)
    requires Inv(s) && other != TrimSpace(key)
    ensures SameKey(cfg, s, Remove(cfg, s, key).0, other)
  {
    hide Discovery, StateOf, IsKey, Held, TrimSpace, Remove;
    RemoveOutcome(cfg, s, key);
    RemoveTopics(cfg, s, key);
  }

  lemma SameKeyChains(cfg: Config, s: State, s1: State, s2: State, key: string)
    requires SameKey(cfg, s, s1, key) && SameKey(cfg, s1, s2, key)
    ensures SameKey(cfg, s, s2, key)
  {
    hide Discovery, StateOf, Held;
  }

  lemma GoneStays(cfg: Config, s: State, s': State, key: string)
    requires Gone(cfg, s, key) && SameKey(cfg, s, s', key)
    ensures Gone(cfg, s', key)
  {
    hide Discovery, StateOf, Held;
  }

  lemma SameAsItself(cfg: Config, s: State, key: string)
    ensures SameKey(cfg, s, s, key)
  {
  }

  lemma {:induction false} RemoveStaleSplits(cfg: Config, s: State, order: seq<string>, keep: set<string>)
    requires Inv(s) && NoOrphans(cfg, s) && (forall i, j :: 0 <= i < j < |order| ==> order[i] != order[j])
    requires forall k :: k in order ==> IsKey(k)
    ensures var (s', ok) := RemoveStale(cfg, s, order, keep);
            && Inv(s') && NoOrphans(cfg, s')
            && (forall k :: k in keep || k !in order ==> SameKey(cfg, s, s', k))
            && (ok ==> forall k :: k in order && k !in keep ==> Gone(cfg, s', k))
            && (s.broker.script == [] ==> ok && s'.broker.script == [])
    decreases |order|
  {
    hide Discovery, StateOf, Held, IsKey, TrimSpace, Remove, Inv, NoOrphans, SameKey, Gone;
    forall k ensures SameKey(cfg, s, s, k) {
      SameAsItself(cfg, s, k);
    }
    if order != [] {
      var key, rest := order[0], order[1..];
      assert forall k :: k in order <==> k == key || k in rest;
      assert key !in rest;
      if key in keep {
        RemoveStaleSplits(cfg, s, rest, keep);
      } else {
        KeysAreTrimmed(key);
        RemoveKeeps(cfg, s, key);
        RemoveOutcome(cfg, s, key);
        var s1 := Remove(cfg, s, key).0;
        forall k | k != key ensures SameKey(cfg, s, s1, k) {
          RemoveSparesOthers(cfg, s, key, k);
        }
        if Remove(cfg, s, key).1 {
          RemoveClears(cfg, s, key);
          RemoveStaleSplits(cfg, s1, rest, keep);
          var s2 := RemoveStale(cfg, s1, rest, keep).0;
          forall k | k in keep || k !in order ensures SameKey(cfg, s, s2, k) {
            SameKeyChains(cfg, s, s1, s2, k);
          }
          GoneStays(cfg, s1, s2, key);
        }
      }
    }
  }

  lemma KeysAreTrimmed(key: string)
    requires IsKey(key)
    ensures TrimSpace(key) == key && key != ""
  {
    TightIsTrimmed(key);
  }

  lemma KeptAreRegistered(cfg: Config, s: State, s': State, order: seq<string>, keep: set<string>)
    requires IsListing(order, s.kinds.Keys) && forall k :: k in keep || k !in order ==> SameKey(cfg, s, s', k)
    ensures (forall k :: k in order && k !in keep ==> Gone(cfg, s', k)) ==> s'.kinds.Keys == s.kinds.Keys * keep
  {
    hide Discovery, StateOf, Held;
    forall k ensures k in s.kinds.Keys <==> k in order {
    }
  }

  /** One of the keys to keep is this one, white space aside. */
  ghost predicate Names(keep: seq<string>, key: string) {
    exists k :: k in keep && TrimSpace(k) == key
  }

  lemma KeysAreNamed(keep: seq<string>, key: string)
    requires IsKey(key)
    ensures key in KeepSet(keep) <==> Names(keep, key)
  {
    hide TrimSpace;
  }

  /**
   * A successful Reconcile leaves exactly the kept keys registered, and of every other nothing at all; kept keys
   * keep everything, also when it fails on the way, and nothing is published after that. Without a registry file it is
   * refused.
   */
  lemma ReconcileLeavesKept(cfg: Config, s: State, keep: seq<string>, order: seq<string>)
    requires Inv(s) && NoOrphans(cfg, s) && IsListing(order, s.kinds.Keys)
    ensures var (s', ok) := Reconcile(cfg, s, keep, order);
            && Inv(s') && NoOrphans(cfg, s')
            && (ok ==> cfg.persistent && forall k :: k in s'.kinds <==> k in s.kinds && Names(keep, k))
            && (ok ==> forall k :: k in s.kinds && !Names(keep, k) ==> Gone(cfg, s', k))
            && (forall k :: k in s.kinds && Names(keep, k) ==> SameKey(cfg, s, s', k))
            && (!cfg.persistent ==> !ok && s' == s)
            && (cfg.persistent ==> PublishedInTurn(s.broker, s'.broker, ok))
            && (s.broker.script == [] && cfg.persistent ==> ok)
  {
    forall k | k in order ensures IsKey(k) {
      assert k in s.kinds.Keys;
    }
    forall k | k in s.kinds ensures k in KeepSet(keep) <==> Names(keep, k) {
      KeysAreNamed(keep, k);
    }
    hide Discovery, StateOf, Held, IsKey, TrimSpace, NoOrphans, RemoveStale, KeepSet, Names;
    if !cfg.persistent {
      forall k ensures SameKey(cfg, s, s, k) {
        SameAsItself(cfg, s, k);
      }
    } else {
      RemoveStaleSplits(cfg, s, order, KeepSet(keep));
      RemovesInTurn(cfg, s, order, KeepSet(keep));
      hide PublishedInTurn;
      var s' := RemoveStale(cfg, s, order, KeepSet(keep)).0;
      hide Inv, Gone;
      KeptAreRegistered(cfg, s, s', order, KeepSet(keep));
    }
  }

  // ---- Commands ----

  /**
   * A command that says on or off runs the callback of the declared switch whose command topic it came on, and no
   * other; any other payload runs none.
   */
  lemma CommandReachesItsSwitch(cfg: Config, s: State, topic: string, payload: Payload, key: string)
    requires Inv(s) && "+" !in Levels(cfg.appPrefix) && Matches(cfg.appPrefix + "/entities/+/set", topic)
    requires '/' !in key && topic == cfg.appPrefix + "/entities/" + key + "/set"
    ensures HandleCommand(cfg, s, topic, payload) ==
            if key !in s.handlers then None
            else if SaysOn(payload) then Some((s.handlers[key], true))
            else if SaysOff(payload) then Some((s.handlers[key], false))
            else None
    ensures HandleCommand(cfg, s, topic, payload).Some? ==> key in s.entities && s.entities[key].kind == Switch
  {
    CommandTopicOf(cfg, key);
    ParsedBool(payload);
    hide ParseRuntimeCommandTopic, Levels, Matches, CommandTopic, ParseBoolPayload, SaysOn, SaysOff;
    ParseIsExactOnCommands(cfg.appPrefix, topic, key);
    if ParseRuntimeCommandTopic(cfg.appPrefix, topic).Some? {
      var parsed := ParseRuntimeCommandTopic(cfg.appPrefix, topic).value;
      ParseIsExactOnCommands(cfg.appPrefix, topic, parsed);
      SameCommandTopic(cfg.appPrefix, parsed, key);
    }
  }

  lemma CommandTopicOf(cfg: Config, key: string)
    ensures CommandTopic(cfg.appPrefix, key) == cfg.appPrefix + "/entities/" + key + "/set"
  {
  }

  lemma SameCommandTopic(appPrefix: string, key1: string, key2: string)
    requires CommandTopic(appPrefix, key1) == CommandTopic(appPrefix, key2)
    ensures key1 == key2
  {
    Middle(appPrefix + "/entities/", key1, key2, "/set");
  }
}
