/** What the forwarder builds from a validated config: channels, consumers and the subjects of its stream. */
module NotifyStartup {
  import opened Wrappers
  import opened NotifyConfig

  /** The channel maps; where an id is repeated the last entry counts. */
  datatype NotificationChannels = NotificationChannels(
    telegram: map<string, Channel>,
    discord: map<string, Channel>,
    opsGenie: map<string, Channel>,
    slack: map<string, Channel>)

  /** Entry n is the last one with this id. */
  predicate LastWithId(channels: seq<Channel>, id: string, n: nat) {
    n < |channels| && channels[n].id == id && forall m | n < m < |channels| :: channels[m].id != id
  }

  /** The map holds, for every id of the list and for no other, the last entry with that id. */
  ghost predicate Indexes(channels: seq<Channel>, byId: map<string, Channel>) {
    && (forall n | 0 <= n < |channels| :: channels[n].id in byId)
    && (forall id | id in byId :: exists n: nat :: LastWithId(channels, id, n) && byId[id] == channels[n])
  }

  method Index(channels: seq<Channel>) returns (byId: map<string, Channel>)
    ensures Indexes(channels, byId)
  {
    byId := map[];
    assert channels[..0] == [];
    for n := 0 to |channels|
      invariant Indexes(channels[..n], byId)
    {
      var c := channels[n];
      ghost var before, after := channels[..n], channels[..n + 1];
      assert after == before + [c];
      assert LastWithId(after, c.id, n);
      forall id | id in byId && id != c.id ensures exists m: nat :: LastWithId(after, id, m) && byId[id] == after[m] {
        var m: nat :| LastWithId(before, id, m) && byId[id] == before[m];
        assert LastWithId(after, id, m);
      }
      byId := byId[c.id := c];
    }
    assert channels[..|channels|] == channels;
  }

  method NewNotificationChannels(cfg: NotificationConfig) returns (channels: NotificationChannels)
    ensures Indexes(cfg.telegramChannels, channels.telegram) && Indexes(cfg.discordChannels, channels.discord)
    ensures Indexes(cfg.opsGenieChannels, channels.opsGenie) && Indexes(cfg.slackChannels, channels.slack)
  {
    var telegram := Index(cfg.telegramChannels);
    var discord := Index(cfg.discordChannels);
    var opsGenie := Index(cfg.opsGenieChannels);
    var slack := Index(cfg.slackChannels);
    channels := NotificationChannels(telegram, discord, opsGenie, slack);
  }

  // ----- consumers -----

  datatype StartupError = InvalidSubjectFormat | ChannelNotFound | UnsupportedType

  datatype Consumer = Consumer(
    name: string, subject: string, severitySet: set<string>, findingFilterMap: set<string>,
    byQuorum: bool, quorumSize: nat, channel: Channel)

  function ChannelMap(channels: NotificationChannels, kind: string): map<string, Channel> {
    if kind == TELEGRAM then channels.telegram
    else if kind == DISCORD then channels.discord
    else if kind == OPSGENIE then channels.opsGenie
    else if kind == SLACK then channels.slack
    else map[]
  }

  /** The consumer was made from this route. */
  predicate MadeFrom(c: Consumer, r: Route, quorumSize: nat, channels: NotificationChannels)
    reads r.cfg
  {
    && |Split(r.subject, '.')| >= SUBJECT_PARTS
    && c.name == DurableName(r.cfg.consumerName, r.subject)
    && c.subject == r.subject
    && c.severitySet == r.cfg.severitySet && c.findingFilterMap == r.cfg.findingFilterMap
    && c.byQuorum == r.cfg.byQuorum && c.quorumSize == quorumSize
    && r.cfg.channelId in ChannelMap(channels, r.cfg.kind)
    && c.channel == ChannelMap(channels, r.cfg.kind)[r.cfg.channelId]
  }

  /** A route from which a consumer can be made. */
  predicate Makeable(r: Route, channels: NotificationChannels) {
    && |Split(r.subject, '.')| >= SUBJECT_PARTS
    && KnownKind(r.cfg.kind)
    && r.cfg.channelId in ChannelMap(channels, r.cfg.kind)
  }

  method NewConsumer(r: Route, quorumSize: nat, channels: NotificationChannels)
    returns (c: Result<Consumer, StartupError>)
    ensures c.Ok? <==> Makeable(r, channels)
    ensures c.Ok? ==> MadeFrom(c.value, r, quorumSize, channels)
  {
    var parts := Split(r.subject, '.');
    if |parts| < SUBJECT_PARTS {
      return Err(InvalidSubjectFormat);
    }
    var teamName, botName := parts[1], parts[2];
    var known: map<string, Channel>;
    if r.cfg.kind == TELEGRAM {
      known := channels.telegram;
    } else if r.cfg.kind == DISCORD {
      known := channels.discord;
    } else if r.cfg.kind == OPSGENIE {
      known := channels.opsGenie;
    } else if r.cfg.kind == SLACK {
      known := channels.slack;
    } else {
      return Err(UnsupportedType);
    }
    assert known == ChannelMap(channels, r.cfg.kind);
    if r.cfg.channelId !in known {
      return Err(ChannelNotFound);
    }
    return Ok(Consumer(teamName + "_" + r.cfg.consumerName + "_" + botName, r.subject, r.cfg.severitySet,
                       r.cfg.findingFilterMap, r.cfg.byQuorum, quorumSize, known[r.cfg.channelId]));
  }

  /** One consumer per route, in the order of the config, unless some route allows none. */
  method NewConsumers(cfg: NotificationConfig, quorumSize: nat, channels: NotificationChannels)
    returns (r: Result<seq<Consumer>, StartupError>)
    ensures r.Ok? <==> forall x | x in AllRoutes(cfg) :: Makeable(x, channels)
    ensures r.Ok? ==> |r.value| == |AllRoutes(cfg)|
    ensures r.Ok? ==> forall n | 0 <= n < |r.value| :: MadeFrom(r.value[n], AllRoutes(cfg)[n], quorumSize, channels)
  {
    hide Makeable, MadeFrom, Routes;
    NoRoutes(cfg.consumers);
    var consumers: seq<Consumer> := [];
    for n := 0 to |cfg.consumers|
      invariant |consumers| == |Routes(cfg.consumers, n)|
      invariant forall m | 0 <= m < |consumers| ::
                  MadeFrom(consumers[m], Routes(cfg.consumers, n)[m], quorumSize, channels)
      invariant forall x | x in Routes(cfg.consumers, n) :: Makeable(x, channels)
    {
      var c := cfg.consumers[n];
      ghost var before := Routes(cfg.consumers, n);
      assert before + RoutesOf(c, 0) == before;
      for j := 0 to |c.subjects|
        invariant |consumers| == |before + RoutesOf(c, j)|
        invariant forall m | 0 <= m < |consumers| ::
                    MadeFrom(consumers[m], (before + RoutesOf(c, j))[m], quorumSize, channels)
        invariant forall x | x in before + RoutesOf(c, j) :: Makeable(x, channels)
      {
        var route := Route(c, c.subjects[j]);
        assert before + RoutesOf(c, j + 1) == (before + RoutesOf(c, j)) + [route];
        RoutesWithin(cfg, n, j + 1);
        assert (before + RoutesOf(c, j + 1))[|before| + j] == route;
        var made := NewConsumer(route, quorumSize, channels);
        if made.Err? {
          assert AllRoutes(cfg)[|before| + j] == route;
          return Err(made.error);
        }
        forall m | 0 <= m < |consumers|
          ensures MadeFrom(consumers[m], (before + RoutesOf(c, j + 1))[m], quorumSize, channels)
        {
          var r := (before + RoutesOf(c, j))[m];
          assert (before + RoutesOf(c, j + 1))[m] == r;
          assert r.cfg in cfg.consumers by {
            if m < |before| {
              RouteOfConsumer(cfg.consumers, n, m);
            }
          }
        }
        consumers := consumers + [made.value];
      }
      RoutesStep(cfg.consumers, n);
    }
    return Ok(consumers);
  }

  /** Channels indexed from an accepted config serve every route of it. */
  lemma AcceptedIsMakeable(cfg: NotificationConfig, channels: NotificationChannels)
    requires Accepts(cfg)
    requires Indexes(cfg.telegramChannels, channels.telegram) && Indexes(cfg.discordChannels, channels.discord)
    requires Indexes(cfg.opsGenieChannels, channels.opsGenie) && Indexes(cfg.slackChannels, channels.slack)
    ensures forall x | x in AllRoutes(cfg) :: Makeable(x, channels)
  {
    var routes := AllRoutes(cfg);
    forall m | 0 <= m < |routes| ensures Makeable(routes[m], channels) {
      RouteOfConsumer(cfg.consumers, |cfg.consumers|, m);
      assert ChannelKnown(cfg, routes[m].cfg);
      assert Indexes(ChannelsOf(cfg, routes[m].cfg.kind), ChannelMap(channels, routes[m].cfg.kind));
      assert ValidSubject(routes[m].subject);
    }
  }

  /**
   Startup. If the config is accepted the construction cannot fail: there is one
   consumer per consumer entry and subject, no two share a durable name, and each
   has the non-empty set of severities its entry lists.
   */
  method Start(cfg: NotificationConfig, quorumSize: nat)
    returns (rejected: Option<ConfigError>, r: Result<seq<Consumer>, StartupError>)
    modifies cfg.consumers
    ensures rejected.None? <==> Accepts(cfg)
    ensures rejected.None? ==>
              && r.Ok? && |r.value| == |AllRoutes(cfg)|
              && (forall m, n | 0 <= m < n < |r.value| :: r.value[m].name != r.value[n].name)
              && (forall n | 0 <= n < |r.value| ::
                    var c := AllRoutes(cfg)[n].cfg;
                    && r.value[n].subject == AllRoutes(cfg)[n].subject
                    && r.value[n].severitySet == (set s | s in c.severities) && r.value[n].severitySet != {}
                    && r.value[n].findingFilterMap == (set a | a in c.filter)
                    && r.value[n].byQuorum == c.byQuorum && r.value[n].quorumSize == quorumSize
                    && r.value[n].channel.id == c.channelId && r.value[n].channel in ChannelsOf(cfg, c.kind)
                    && (c.kind == TELEGRAM ==> r.value[n].channel in cfg.telegramChannels)
                    && (c.kind == DISCORD ==> r.value[n].channel in cfg.discordChannels)
                    && (c.kind == OPSGENIE ==> r.value[n].channel in cfg.opsGenieChannels)
                    && (c.kind == SLACK ==> r.value[n].channel in cfg.slackChannels))
  {
    r := Err(UnsupportedType);
    rejected := ValidateConfig(cfg);
    if rejected.Some? {
      return;
    }
    var channels := NewNotificationChannels(cfg);
    r := NewConsumers(cfg, quorumSize, channels);
    AcceptedIsMakeable(cfg, channels);
    var routes := AllRoutes(cfg);
    forall n | 0 <= n < |routes| ensures routes[n].cfg in cfg.consumers {
      RouteOfConsumer(cfg.consumers, |cfg.consumers|, n);
    }
    assert DistinctNames(routes);
    forall m, n | 0 <= m < n < |r.value| ensures r.value[m].name != r.value[n].name {
      assert MadeFrom(r.value[m], routes[m], quorumSize, channels);
      assert MadeFrom(r.value[n], routes[n], quorumSize, channels);
    }
    hide Accepts, DistinctNames, Makeable, Routes;
  }

  // ----- the subjects of the stream -----

  /** Go's order on strings. */
  predicate LessOrEqual(a: string, b: string) {
    a == [] || (b != [] && (a[0] < b[0] || (a[0] == b[0] && LessOrEqual(a[1..], b[1..]))))
  }

  lemma {:induction false} Total(a: string, b: string)
    ensures LessOrEqual(a, b) || LessOrEqual(b, a)
  {
    if a != [] && b != [] {
      Total(a[1..], b[1..]);
    }
  }

  lemma {:induction false} Antisymmetric(a: string, b: string)
    requires LessOrEqual(a, b) && LessOrEqual(b, a)
    ensures a == b
  {
    if a != [] && b != [] {
      Antisymmetric(a[1..], b[1..]);
      assert a == [a[0]] + a[1..] && b == [b[0]] + b[1..];
    }
  }

  lemma {:induction false} Transitive(a: string, b: string, c: string)
    requires LessOrEqual(a, b) && LessOrEqual(b, c)
    ensures LessOrEqual(a, c)
  {
    if a != [] && b != [] && c != [] && a[0] == b[0] == c[0] {
      Transitive(a[1..], b[1..], c[1..]);
    }
  }

  predicate Sorted(out: seq<string>) {
    forall m, n | 0 <= m < n < |out| :: LessOrEqual(out[m], out[n]) && out[m] != out[n]
  }

  function Elements(out: seq<string>): set<string> {
    set s | s in out
  }

  lemma ElementsOfNone(out: seq<string>)
    ensures Elements(out) == {} <==> out == []
  {
    if out != [] {
      assert out[0] in Elements(out);
    }
  }

  /** A sorted list without duplicates is determined by its elements. */
  lemma {:induction false} SortedUnique(a: seq<string>, b: seq<string>)
    requires Sorted(a) && Sorted(b) && Elements(a) == Elements(b)
    ensures a == b
  {
    ElementsOfNone(a);
    ElementsOfNone(b);
    if a != [] {
      assert a[0] in Elements(b);
      var n :| 0 <= n < |b| && b[n] == a[0];
      assert b[0] in Elements(a);
      var m :| 0 <= m < |a| && a[m] == b[0];
      if m > 0 && n > 0 {
        Antisymmetric(a[0], b[0]);
      }
      assert a[0] == b[0];
      assert Elements(a[1..]) == Elements(a) - {a[0]} by {
        assert forall s :: s in a <==> s == a[0] || s in a[1..];
      }
      assert Elements(b[1..]) == Elements(b) - {b[0]} by {
        assert forall s :: s in b <==> s == b[0] || s in b[1..];
      }
      SortedUnique(a[1..], b[1..]);
      assert a == [a[0]] + a[1..] && b == [b[0]] + b[1..];
    }
  }

  /** Puts a new element where it belongs. */
  method Insert(out: seq<string>, s: string) returns (r: seq<string>)
    requires Sorted(out) && s !in out
    ensures Sorted(r) && Elements(r) == Elements(out) + {s}
  {
    var n := 0;
    while n < |out| && LessOrEqual(out[n], s)
      invariant n <= |out|
      invariant forall m | 0 <= m < n :: LessOrEqual(out[m], s)
    {
      n := n + 1;
    }
    r := out[..n] + [s] + out[n..];
    if n < |out| {
      Total(out[n], s);
      forall m | n <= m < |out| ensures LessOrEqual(s, out[m]) {
        if m > n {
          Transitive(s, out[n], out[m]);
        }
      }
    }
    assert out == out[..n] + out[n..];
  }

  /** All subjects of the config. */
  function SubjectsOf(consumers: seq<ConsumerConfig>, n: nat): set<string>
    requires n <= |consumers|
  {
    if n == 0 then {} else SubjectsOf(consumers, n - 1) + Elements(consumers[n - 1].subjects)
  }

  lemma {:induction false} SubjectsAre(consumers: seq<ConsumerConfig>, n: nat, s: string)
    requires n <= |consumers|
    ensures s in SubjectsOf(consumers, n) <==> exists m :: 0 <= m < n && s in consumers[m].subjects
  {
    if n > 0 {
      SubjectsAre(consumers, n - 1, s);
    }
  }

  /**
   The subjects without duplicates, in order. The map they are collected in has no
   order; by `SortedUnique` the result does not depend on the one it is read in.
   */
  method CollectNatsSubjects(cfg: NotificationConfig) returns (out: seq<string>)
    ensures Sorted(out)
    ensures Elements(out) == SubjectsOf(cfg.consumers, |cfg.consumers|)
    ensures forall s :: s in out <==> exists c :: c in cfg.consumers && s in c.subjects
  {
    var subjects: set<string> := {};
    for n := 0 to |cfg.consumers|
      invariant subjects == SubjectsOf(cfg.consumers, n)
    {
      ghost var before := subjects;
      var c := cfg.consumers[n];
      for j := 0 to |c.subjects|
        invariant subjects == before + Elements(c.subjects[..j])
      {
        assert c.subjects[..j + 1] == c.subjects[..j] + [c.subjects[j]];
        subjects := subjects + {c.subjects[j]};
      }
      assert c.subjects[..|c.subjects|] == c.subjects;
    }
    out := [];
    ghost var all := subjects;
    while subjects != {}
      invariant Sorted(out)
      invariant Elements(out) + subjects == all && Elements(out) !! subjects
      decreases subjects
    {
      var s :| s in subjects;
      subjects := subjects - {s};
      assert s !in out by {
        assert s !in Elements(out);
      }
      out := Insert(out, s);
    }
    forall s ensures s in out <==> exists c :: c in cfg.consumers && s in c.subjects {
      assert s in out <==> s in Elements(out);
      SubjectsAre(cfg.consumers, |cfg.consumers|, s);
      if c :| c in cfg.consumers && s in c.subjects {
        var m :| 0 <= m < |cfg.consumers| && cfg.consumers[m] == c;
      }
    }
  }
}
