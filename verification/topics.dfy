/** Keys and topic names of the runtime entities (buildEntity, validateRuntimeKey and parseRuntimeCommandTopic). */
module Topics {
  import opened Options

  datatype Kind = Switch | Sensor | BinarySensor

  function KindName(kind: Kind): string {
    match kind
    case Switch => "switch"
    case Sensor => "sensor"
    case BinarySensor => "binary_sensor"
  }

  // ---- Trimming, as strings.TrimSpace does it ----

  /** The code points unicode.IsSpace accepts. */
  predicate IsSpace(c: char) {
    var u := c as int;
    || 0x09 <= u <= 0x0d || u == 0x20 || u == 0x85 || u == 0xa0 || u == 0x1680 || 0x2000 <= u <= 0x200a
    || u == 0x2028 || u == 0x2029 || u == 0x202f || u == 0x205f || u == 0x3000
  }

  /** They are the 25 characters of white space that Unicode has. */
  lemma WhiteSpace(c: char)
    ensures IsSpace(c) <==>
            c in "\t\n\U{B}\U{C}\r \U{85}\U{A0}\U{1680}\U{2000}\U{2001}\U{2002}\U{2003}\U{2004}\U{2005}\U{2006}\U{2007}"
                 + "\U{2008}\U{2009}\U{200A}\U{2028}\U{2029}\U{202F}\U{205F}\U{3000}"
  {
  }

  function TrimLeft(s: string): string {
    if s != "" && IsSpace(s[0]) then TrimLeft(s[1..]) else s
  }

  function TrimRight(s: string): string {
    if s != "" && IsSpace(s[|s| - 1]) then TrimRight(s[..|s| - 1]) else s
  }

  function TrimSpace(s: string): string {
    TrimRight(TrimLeft(s))
  }

  predicate AllSpace(s: string) {
    forall i :: 0 <= i < |s| ==> IsSpace(s[i])
  }

  /** No white space at either end. */
  predicate Tight(s: string) {
    s != "" ==> !IsSpace(s[0]) && !IsSpace(s[|s| - 1])
  }

  lemma {:induction false} TrimLeftCuts(s: string) returns (a: string)
    ensures AllSpace(a) && s == a + TrimLeft(s) && (TrimLeft(s) != "" ==> !IsSpace(TrimLeft(s)[0]))
  {
    if s != "" && IsSpace(s[0]) {
      var rest := TrimLeftCuts(s[1..]);
      a := s[..1] + rest;
    } else {
      a := "";
    }
  }

  lemma {:induction false} TrimRightCuts(s: string) returns (b: string)
    ensures AllSpace(b) && s == TrimRight(s) + b
    ensures TrimRight(s) != "" ==> TrimRight(s)[0] == s[0] && !IsSpace(TrimRight(s)[|TrimRight(s)| - 1])
  {
    if s != "" && IsSpace(s[|s| - 1]) {
      var rest := TrimRightCuts(s[..|s| - 1]);
      b := rest + s[|s| - 1..];
    } else {
      b := "";
    }
  }

  /** Only white space is cut, at both ends, and none is left there. */
  lemma TrimCuts(s: string) returns (a: string, b: string)
    ensures AllSpace(a) && AllSpace(b) && s == a + TrimSpace(s) + b && Tight(TrimSpace(s))
  {
    a := TrimLeftCuts(s);
    b := TrimRightCuts(TrimLeft(s));
    assert a + (TrimSpace(s) + b) == a + TrimSpace(s) + b;
  }

  lemma {:induction false} TrimLeftDrops(a: string, s: string)
    requires AllSpace(a) && (s != "" ==> !IsSpace(s[0]))
    ensures TrimLeft(a + s) == s
  {
    if a == "" {
      assert a + s == s;
    } else {
      assert (a + s)[1..] == a[1..] + s;
      TrimLeftDrops(a[1..], s);
    }
  }

  lemma {:induction false} TrimRightDrops(s: string, b: string)
    requires AllSpace(b) && (s != "" ==> !IsSpace(s[|s| - 1]))
    ensures TrimRight(s + b) == s
  {
    if b == "" {
      assert s + b == s;
    } else {
      assert (s + b)[..|s + b| - 1] == s + b[..|b| - 1];
      TrimRightDrops(s, b[..|b| - 1]);
    }
  }

  /** White space around a tight string does not matter: there is only one way to trim. */
  lemma TrimIsUnique(a: string, s: string, b: string)
    requires AllSpace(a) && AllSpace(b) && Tight(s)
    ensures TrimSpace(a + s + b) == s
  {
    if s == "" {
      assert a + s + b == (a + b) + "";
      TrimLeftDrops(a + b, "");
    } else {
      assert a + s + b == a + (s + b);
      TrimLeftDrops(a, s + b);
      TrimRightDrops(s, b);
    }
  }

  lemma TightIsTrimmed(s: string)
    requires Tight(s)
    ensures TrimSpace(s) == s
  {
    TrimIsUnique("", s, "");
    assert "" + s + "" == s;
  }

  /** Trimming adds and loses only white space. */
  lemma TrimKeeps(s: string, c: char)
    requires !IsSpace(c)
    ensures c in TrimSpace(s) <==> c in s
  {
    var a, b := TrimCuts(s);
  }

  // ---- Keys ----

  /** A key as the runtime keeps it: trimmed, not empty, without a slash. */
  predicate IsKey(key: string) {
    Tight(key) && key != "" && '/' !in key
  }

  function ValidateRuntimeKey(key: string): (r: Option<string>) {
    var trimmed := TrimSpace(key);
    if trimmed == "" || '/' in trimmed then None else Some(trimmed)
  }

  /** What validation accepts is a key, and validating a key again changes nothing. */
  lemma ValidatedIsKey(raw: string)
    ensures ValidateRuntimeKey(raw).Some? <==> IsKey(TrimSpace(raw))
    ensures ValidateRuntimeKey(raw).Some? ==> ValidateRuntimeKey(ValidateRuntimeKey(raw).value) == ValidateRuntimeKey(raw)
    ensures IsKey(raw) ==> ValidateRuntimeKey(raw) == Some(raw)
  {
    var a, b := TrimCuts(raw);
    TightIsTrimmed(TrimSpace(raw));
    if IsKey(raw) {
      TightIsTrimmed(raw);
    }
  }

  // ---- Topics ----

  function DiscoveryTopic(discoveryPrefix: string, kind: Kind, key: string): string {
    discoveryPrefix + "/" + KindName(kind) + "/" + key + "/config"
  }

  function StateTopic(appPrefix: string, key: string): string {
    appPrefix + "/entities/" + key + "/state"
  }

  function CommandTopic(appPrefix: string, key: string): string {
    appPrefix + "/entities/" + key + "/set"
  }

  function AvailabilityTopic(appPrefix: string): string {
    appPrefix + "/status"
  }

  lemma CancelPrefix(p: string, a: string, b: string)
    requires p + a == p + b
    ensures a == b
  {
    assert (p + a)[|p|..] == a && (p + b)[|p|..] == b;
  }

  lemma CancelSuffix(a: string, b: string, s: string)
    requires a + s == b + s
    ensures a == b
  {
    assert |a + s| == |a| + |s| && |b + s| == |b| + |s|;
    assert (a + s)[..|a|] == a && (b + s)[..|b|] == b;
  }

  lemma Middle(p: string, a: string, b: string, s: string)
    requires p + a + s == p + b + s
    ensures a == b
  {
    CancelSuffix(p + a, p + b, s);
    CancelPrefix(p, a, b);
  }

  lemma KindThenKey(kind1: Kind, kind2: Kind, key1: string, key2: string)
    requires KindName(kind1) + "/" + key1 == KindName(kind2) + "/" + key2
    ensures kind1 == kind2 && key1 == key2
  {
    var both := KindName(kind1) + "/" + key1;
    assert both[0] == KindName(kind1)[0] == KindName(kind2)[0];
    assert both[1] == KindName(kind1)[1] == KindName(kind2)[1];
    CancelPrefix(KindName(kind1) + "/", key1, key2);
  }

  /** Two entities share a discovery topic only if they are the same; likewise for state topics. */
  lemma TopicsAreInjective(dp: string, ap: string, kind1: Kind, kind2: Kind, key1: string, key2: string)
    ensures DiscoveryTopic(dp, kind1, key1) == DiscoveryTopic(dp, kind2, key2) ==> kind1 == kind2 && key1 == key2
    ensures StateTopic(ap, key1) == StateTopic(ap, key2) ==> key1 == key2
  {
    if DiscoveryTopic(dp, kind1, key1) == DiscoveryTopic(dp, kind2, key2) {
      SplitDiscovery(dp, kind1, key1);
      SplitDiscovery(dp, kind2, key2);
      hide DiscoveryTopic, KindName;
      Middle(dp + "/", KindName(kind1) + "/" + key1, KindName(kind2) + "/" + key2, "/config");
      KindThenKey(kind1, kind2, key1, key2);
    }
    if StateTopic(ap, key1) == StateTopic(ap, key2) {
      Middle(ap + "/entities/", key1, key2, "/state");
    }
  }

  lemma SplitDiscovery(dp: string, kind: Kind, key: string)
    ensures DiscoveryTopic(dp, kind, key) == (dp + "/") + (KindName(kind) + "/" + key) + "/config"
  {
    hide KindName;
  }

  /** Topics of different uses differ in their last character, whatever the prefixes are. */
  lemma TopicsAreDisjoint(dp: string, ap: string, kind: Kind, key1: string, key2: string)
    ensures DiscoveryTopic(dp, kind, key1) != StateTopic(ap, key2)
    ensures DiscoveryTopic(dp, kind, key1) != AvailabilityTopic(ap) && StateTopic(ap, key2) != AvailabilityTopic(ap)
    ensures CommandTopic(ap, key1) != StateTopic(ap, key2) && CommandTopic(ap, key1) != AvailabilityTopic(ap)
    ensures CommandTopic(ap, key1) != DiscoveryTopic(dp, kind, key2)
  {
    Last(dp + "/" + KindName(kind) + "/" + key1, "/config");
    Last(dp + "/" + KindName(kind) + "/" + key2, "/config");
    Last(ap + "/entities/" + key2, "/state");
    Last(ap, "/status");
    Last(ap + "/entities/" + key1, "/set");
  }

  lemma Last(a: string, s: string)
    requires s != ""
    ensures (a + s)[|a + s| - 1] == s[|s| - 1]
  {
  }

  // ---- Commands ----

  predicate HasSuffix(s: string, suffix: string) {
    |suffix| <= |s| && s[|s| - |suffix|..] == suffix
  }

  function TrimPrefix(s: string, prefix: string): string {
    if prefix <= s then s[|prefix|..] else s
  }

  function TrimSuffix(s: string, suffix: string): string {
    if HasSuffix(s, suffix) then s[..|s| - |suffix|] else s
  }

  function ParseRuntimeCommandTopic(appPrefix: string, topic: string): Option<string> {
    var prefix := appPrefix + "/entities/";
    var suffix := "/set";
    if !(prefix <= topic) || !HasSuffix(topic, suffix) then None
    else
      var key := TrimSuffix(TrimPrefix(topic, prefix), suffix);
      if key == "" || '/' in key then None else Some(key)
  }

  /** Parsing undoes buildEntity for every key. */
  lemma ParseUndoesBuild(appPrefix: string, key: string)
    requires key != "" && '/' !in key
    ensures ParseRuntimeCommandTopic(appPrefix, CommandTopic(appPrefix, key)) == Some(key)
  {
    var prefix, topic, rest := appPrefix + "/entities/", CommandTopic(appPrefix, key), key + "/set";
    assert topic == prefix + rest && topic[|prefix|..] == rest;
    assert rest[..|key|] == key && rest[|key|..] == "/set";
    SharedTail(prefix, rest, "/set");
  }

  lemma SharedTail(p: string, rest: string, suffix: string)
    ensures |suffix| <= |rest| ==> (HasSuffix(p + rest, suffix) <==> HasSuffix(rest, suffix))
  {
    if |suffix| <= |rest| {
      assert (p + rest)[|p + rest| - |suffix|..] == rest[|rest| - |suffix|..];
    }
  }

  lemma EndsInSet(topic: string)
    requires HasSuffix(topic, "/set")
    ensures var n := |topic|; topic[n - 4] == '/' && topic[n - 3] == 's' && topic[n - 2] == 'e' && topic[n - 1] == 't'
  {
    var tail := topic[|topic| - 4..];
    assert tail == "/set" && tail[0] == '/' && tail[1] == 's' && tail[2] == 'e' && tail[3] == 't';
  }

  /** With the slash of the suffix inside the prefix only "set" can be left. */
  lemma OverlappingSlash(appPrefix: string, rest: string)
    requires rest != "" && !HasSuffix(rest, "/set") && HasSuffix(appPrefix + "/entities/" + rest, "/set")
    ensures rest == "set"
  {
    var prefix := appPrefix + "/entities/";
    var topic := prefix + rest;
    SharedTail(prefix, rest, "/set");
    EndsInSet(topic);
    assert forall i :: 0 <= i < |rest| ==> rest[i] == topic[|prefix| + i];
    assert topic[|prefix| - 1] == prefix[|prefix| - 1] == '/';
    assert |rest| == 3;
  }

  lemma ParsedFrom(appPrefix: string, topic: string, key: string)
    requires ParseRuntimeCommandTopic(appPrefix, topic) == Some(key)
    ensures key != "" && '/' !in key
    ensures topic == CommandTopic(appPrefix, key) || (key == "set" && topic == appPrefix + "/entities/set")
  {
    var prefix := appPrefix + "/entities/";
    var rest := topic[|prefix|..];
    assert topic == prefix + rest;
    if HasSuffix(rest, "/set") {
      assert rest == key + "/set";
      assert topic == prefix + key + "/set";
    } else {
      OverlappingSlash(appPrefix, rest);
      assert topic == appPrefix + "/entities/set";
    }
  }

  lemma ParseOfBareSet(appPrefix: string)
    ensures ParseRuntimeCommandTopic(appPrefix, appPrefix + "/entities/set") == Some("set")
  {
    var prefix, topic := appPrefix + "/entities/", appPrefix + "/entities/set";
    assert topic == prefix + "set" && topic[|prefix|..] == "set";
    assert topic[|topic| - 4..] == "/set";
  }

  /** Apart from the command topics only one topic is accepted: there the slash before set ends the prefix too. */
  lemma ParseAcceptsExactly(appPrefix: string, topic: string, key: string)
    ensures ParseRuntimeCommandTopic(appPrefix, topic) == Some(key) <==>
            || (key != "" && '/' !in key && topic == CommandTopic(appPrefix, key))
            || (key == "set" && topic == appPrefix + "/entities/set")
  {
    hide ParseRuntimeCommandTopic;
    if ParseRuntimeCommandTopic(appPrefix, topic) == Some(key) {
      ParsedFrom(appPrefix, topic, key);
    }
    if key != "" && '/' !in key && topic == CommandTopic(appPrefix, key) {
      ParseUndoesBuild(appPrefix, key);
    }
    ParseOfBareSet(appPrefix);
  }

  // ---- The subscription filter ----

  /** The levels of a topic name, which slashes separate. */
  function Levels(s: string): (ls: seq<string>)
    ensures ls != []
  {
    if s == "" then [""]
    else
      var rest := Levels(s[1..]);
      if s[0] == '/' then [""] + rest else [[s[0]] + rest[0]] + rest[1..]
  }

  function Join(ls: seq<string>): string
    requires ls != []
  {
    if |ls| == 1 then ls[0] else ls[0] + "/" + Join(ls[1..])
  }

  /** MQTT 3.1.1, section 4.7.1.3: a plus sign stands for exactly one level. */
  predicate Matches(filter: string, topic: string) {
    var f, t := Levels(filter), Levels(topic);
    |f| == |t| && forall i :: 0 <= i < |f| ==> f[i] == "+" || f[i] == t[i]
  }

  lemma JoinStep(ls: seq<string>)
    requires |ls| > 1
    ensures Join(ls) == ls[0] + "/" + Join(ls[1..])
  {
  }

  lemma JoinSlash(ls: seq<string>)
    requires ls != []
    ensures Join([""] + ls) == "/" + Join(ls)
  {
    JoinStep([""] + ls);
    assert ([""] + ls)[1..] == ls;
    hide Join;
  }

  lemma JoinOne(ls: seq<string>)
    requires |ls| == 1
    ensures Join(ls) == ls[0]
  {
  }

  lemma JoinLonger(c: char, ls: seq<string>)
    requires ls != []
    ensures Join([[c] + ls[0]] + ls[1..]) == [c] + Join(ls)
  {
    hide Join;
    var longer := [[c] + ls[0]] + ls[1..];
    if |ls| == 1 {
      JoinOne(longer);
      JoinOne(ls);
    } else {
      JoinStep(longer);
      JoinStep(ls);
      assert longer[1..] == ls[1..] && longer[0] == [c] + ls[0];
      Regrouped([c], ls[0], "/" + Join(ls[1..]));
      Regrouped(longer[0], "/", Join(ls[1..]));
      Regrouped(ls[0], "/", Join(ls[1..]));
    }
  }

  lemma Regrouped(x: string, y: string, z: string)
    ensures x + y + z == x + (y + z)
  {
  }

  lemma {:induction false} JoinLevels(s: string)
    ensures Join(Levels(s)) == s
  {
    if s != "" {
      hide Join;
      JoinLevels(s[1..]);
      JoinSlash(Levels(s[1..]));
      JoinLonger(s[0], Levels(s[1..]));
      assert s == [s[0]] + s[1..];
    }
  }

  lemma {:induction false} LevelsOfJoined(a: string, b: string)
    ensures Levels(a + "/" + b) == Levels(a) + Levels(b)
  {
    if a == "" {
      assert (a + "/" + b)[1..] == b;
    } else {
      assert (a + "/" + b)[1..] == a[1..] + "/" + b;
      LevelsOfJoined(a[1..], b);
    }
  }

  lemma {:induction false} OneLevel(s: string)
    requires '/' !in s
    ensures Levels(s) == [s]
  {
    if s != "" {
      OneLevel(s[1..]);
      assert [s[0]] + s[1..] == s;
    }
  }

  lemma {:induction false} EachLevelIsOne(s: string, i: nat)
    requires i < |Levels(s)|
    ensures '/' !in Levels(s)[i]
  {
    if s != "" {
      var rest := Levels(s[1..]);
      if s[0] == '/' {
        if i > 0 {
          EachLevelIsOne(s[1..], i - 1);
        }
      } else {
        EachLevelIsOne(s[1..], i);
      }
    }
  }

  lemma EntityLevels(appPrefix: string, level: string)
    requires '/' !in level
    ensures Levels(appPrefix + "/entities/" + level + "/set") == Levels(appPrefix) + ["entities", level, "set"]
  {
    hide Levels;
    FourLevels(appPrefix, "entities", level, "set");
    assert appPrefix + "/entities/" + level + "/set" == appPrefix + "/" + "entities" + "/" + level + "/" + "set";
  }

  lemma FourLevels(prefix: string, x: string, y: string, z: string)
    requires '/' !in x && '/' !in y && '/' !in z
    ensures Levels(prefix + "/" + x + "/" + y + "/" + z) == Levels(prefix) + [x, y, z]
  {
    hide Levels;
    OneLevel(x);
    OneLevel(y);
    OneLevel(z);
    LevelsOfJoined(prefix, x);
    LevelsOfJoined(prefix + "/" + x, y);
    LevelsOfJoined(prefix + "/" + x + "/" + y, z);
  }

  /** The levels of the four kinds of topics: below the discovery prefix the kind is named, below the own one not. */
  lemma TopicLevels(discoveryPrefix: string, appPrefix: string, kind: Kind, key: string)
    requires '/' !in key
    ensures var name := if kind == Switch then "switch" else if kind == Sensor then "sensor" else "binary_sensor";
            Levels(DiscoveryTopic(discoveryPrefix, kind, key)) == Levels(discoveryPrefix) + [name, key, "config"]
    ensures Levels(StateTopic(appPrefix, key)) == Levels(appPrefix) + ["entities", key, "state"]
    ensures Levels(CommandTopic(appPrefix, key)) == Levels(appPrefix) + ["entities", key, "set"]
    ensures Levels(AvailabilityTopic(appPrefix)) == Levels(appPrefix) + ["status"]
  {
    hide Levels;
    FourLevels(discoveryPrefix, KindName(kind), key, "config");
    assert DiscoveryTopic(discoveryPrefix, kind, key) == discoveryPrefix + "/" + KindName(kind) + "/" + key + "/" + "config";
    FourLevels(appPrefix, "entities", key, "state");
    assert StateTopic(appPrefix, key) == appPrefix + "/" + "entities" + "/" + key + "/" + "state";
    FourLevels(appPrefix, "entities", key, "set");
    assert CommandTopic(appPrefix, key) == appPrefix + "/" + "entities" + "/" + key + "/" + "set";
    OneLevel("status");
    LevelsOfJoined(appPrefix, "status");
    assert AvailabilityTopic(appPrefix) == appPrefix + "/" + "status";
  }

  /** The runtime's filter lets through exactly the command topics, an empty level included. */
  lemma FilterPassesCommandTopics(appPrefix: string, topic: string)
    requires "+" !in Levels(appPrefix)
    ensures Matches(appPrefix + "/entities/+/set", topic) <==>
            exists key :: '/' !in key && topic == CommandTopic(appPrefix, key)
  {
    hide Levels;
    EntityLevels(appPrefix, "+");
    assert appPrefix + "/entities/" + "+" + "/set" == appPrefix + "/entities/+/set";
    var f, t := Levels(appPrefix) + ["entities", "+", "set"], Levels(topic);
    if Matches(appPrefix + "/entities/+/set", topic) {
      var n := |Levels(appPrefix)|;
      var key := t[n + 1];
      EachLevelIsOne(topic, n + 1);
      EntityLevels(appPrefix, key);
      assert forall i :: 0 <= i < n ==> f[i] == Levels(appPrefix)[i] && f[i] != "+" && t[i] == f[i];
      assert f[n] == "entities" && f[n + 2] == "set";
      assert t == Levels(appPrefix) + ["entities", key, "set"];
      JoinLevels(topic);
      JoinLevels(CommandTopic(appPrefix, key));
      assert topic == CommandTopic(appPrefix, key);
    }
    if key :| '/' !in key && topic == CommandTopic(appPrefix, key) {
      EntityLevels(appPrefix, key);
    }
  }

  /** On what the filter lets through, parsing is exact: it succeeds with a key on that key's command topic only. */
  lemma ParseIsExactOnCommands(appPrefix: string, topic: string, key: string)
    requires "+" !in Levels(appPrefix) && Matches(appPrefix + "/entities/+/set", topic)
    ensures ParseRuntimeCommandTopic(appPrefix, topic) == Some(key) <==>
            key != "" && '/' !in key && topic == CommandTopic(appPrefix, key)
  {
    hide Levels, Matches;
    FilterPassesCommandTopics(appPrefix, topic);
    var passed :| '/' !in passed && topic == CommandTopic(appPrefix, passed);
    ParseAcceptsExactly(appPrefix, topic, key);
    assert |topic| >= |appPrefix| + 14 > |appPrefix + "/entities/set"|;
  }
}
