/** The validation of the notification config, and the sets it derives for the consumers. */
module NotifyConfig {
  import opened Wrappers

  const SUBJECT_PARTS := 3

  const TELEGRAM := "Telegram"
  const DISCORD := "Discord"
  const OPSGENIE := "OpsGenie"
  const SLACK := "Slack"

  /** A channel of the config: its id, and what it takes to reach it. */
  datatype Channel = Channel(id: string, secret: string)

  /** One consumer entry; validation fills in the two derived sets. */
  class ConsumerConfig {
    const consumerName: string
    const kind: string
    const channelId: string
    const severities: seq<string>
    const byQuorum: bool
    const subjects: seq<string>
    const filter: seq<string>
    var severitySet: set<string>
    var findingFilterMap: set<string>

    constructor (consumerName: string, kind: string, channelId: string, severities: seq<string>,
                 byQuorum: bool, subjects: seq<string>, filter: seq<string>)
      ensures this.consumerName == consumerName && this.kind == kind && this.channelId == channelId
      ensures this.severities == severities && this.byQuorum == byQuorum
      ensures this.subjects == subjects && this.filter == filter
    {
      this.consumerName, this.kind, this.channelId := consumerName, kind, channelId;
      this.severities, this.byQuorum, this.subjects, this.filter := severities, byQuorum, subjects, filter;
      severitySet, findingFilterMap := {}, {};
    }
  }

  datatype NotificationConfig = NotificationConfig(
    severityLevels: seq<string>,
    telegramChannels: seq<Channel>,
    discordChannels: seq<Channel>,
    opsGenieChannels: seq<Channel>,
    slackChannels: seq<Channel>,
    consumers: seq<ConsumerConfig>)

  datatype ConfigError =
    | NoConsumers | NoSeverityLevels | EmptyConsumerName | DuplicatedConsumerName
    | UnknownChannel | UnknownType | NoSeverities | UnknownSeverity
    | NoSubjects | InvalidSubject | EmptySubjectPart | DurableNameCollision

  // ----- subjects and durable names -----

  function Split(s: string, sep: char): (parts: seq<string>)
    ensures |parts| >= 1
  {
    if s == [] then [""]
    else
      var rest := Split(s[1..], sep);
      if s[0] == sep then [""] + rest else [[s[0]] + rest[0]] + rest[1..]
  }

  function Join(parts: seq<string>, sep: char): string
    requires parts != []
  {
    if |parts| == 1 then parts[0] else parts[0] + [sep] + Join(parts[1..], sep)
  }

  /** The parts are the text between the separators. */
  lemma {:induction false} SplitParts(s: string, sep: char)
    ensures Join(Split(s, sep), sep) == s
    ensures forall p | p in Split(s, sep) :: sep !in p
  {
    if s != [] {
      var rest := Split(s[1..], sep);
      SplitParts(s[1..], sep);
      assert s == [s[0]] + s[1..];
      if s[0] == sep {
        assert ([""] + rest)[1..] == rest;
      } else {
        assert ([[s[0]] + rest[0]] + rest[1..])[1..] == rest[1..];
      }
    }
  }

  predicate ValidSubject(subject: string) {
    var parts := Split(subject, '.');
    |parts| >= SUBJECT_PARTS && parts[0] != "" && parts[1] != "" && parts[2] != ""
  }

  function DurableName(consumerName: string, subject: string): string
    requires |Split(subject, '.')| >= SUBJECT_PARTS
  {
    var parts := Split(subject, '.');
    parts[1] + "_" + consumerName + "_" + parts[2]
  }

  /** A subject is valid if and only if it begins with three non-empty parts, and ends there or goes on with a dot. */
  lemma ValidSubjectForm(subject: string)
    ensures ValidSubject(subject) <==>
              exists a, b, c :: NonEmptyParts(a, b, c) && BeginsWith(subject, a + "." + b + "." + c)
  {
    if ValidSubject(subject) {
      var parts := Split(subject, '.');
      SplitParts(subject, '.');
      assert parts[0] in parts && parts[1] in parts && parts[2] in parts;
      assert NonEmptyParts(parts[0], parts[1], parts[2]);
      JoinThree(parts, '.');
      assert BeginsWith(subject, parts[0] + "." + parts[1] + "." + parts[2]);
    }
    forall a, b, c | NonEmptyParts(a, b, c) && BeginsWith(subject, a + "." + b + "." + c)
      ensures ValidSubject(subject)
    {
      SplitThree(subject, a, b, c);
    }
  }

  predicate NonEmptyParts(a: string, b: string, c: string) {
    a != "" && b != "" && c != "" && '.' !in a && '.' !in b && '.' !in c
  }

  predicate BeginsWith(subject: string, start: string) {
    subject == start || start + "." <= subject
  }

  lemma JoinFirst(parts: seq<string>, sep: char)
    requires |parts| >= 2
    ensures Join(parts, sep) == parts[0] + [sep] + Join(parts[1..], sep)
  {
  }

  lemma JoinThree(parts: seq<string>, sep: char)
    requires |parts| >= 3
    ensures var start := parts[0] + [sep] + parts[1] + [sep] + parts[2];
            Join(parts, sep) == start || start + [sep] <= Join(parts, sep)
  {
    hide Join;
    var a, b, c, tail := parts[0], parts[1], parts[2], Join(parts[2..], sep);
    var start := a + [sep] + b + [sep];
    JoinFirst(parts, sep);
    JoinFirst(parts[1..], sep);
    assert parts[1..][1..] == parts[2..];
    assert Join(parts, sep) == start + tail;
    if |parts| == 3 {
      JoinOne(parts[2..], sep);
    } else {
      JoinFirst(parts[2..], sep);
      var rest := Join(parts[2..][1..], sep);
      assert tail == c + [sep] + rest;
      assert start + tail == (start + c + [sep]) + rest;
    }
  }

  lemma JoinOne(parts: seq<string>, sep: char)
    requires |parts| == 1
    ensures Join(parts, sep) == parts[0]
  {
  }

  /** Splitting takes the text before the first separator off. */
  lemma {:induction false} SplitFirst(a: string, s: string, sep: char)
    requires sep !in a
    ensures Split(a, sep) == [a]
    ensures Split(a + [sep] + s, sep) == [a] + Split(s, sep)
  {
    if a == "" {
      assert a + [sep] + s == [sep] + s;
      assert ([sep] + s)[1..] == s;
    } else {
      SplitFirst(a[1..], s, sep);
      assert (a + [sep] + s)[1..] == a[1..] + [sep] + s;
      assert [a[0]] + a[1..] == a;
      assert ([a[1..]] + Split(s, sep))[1..] == Split(s, sep);
    }
  }

  /** Two texts before a separator are taken off one after the other. */
  lemma SplitTwice(a: string, b: string, s: string, sep: char)
    requires sep !in a && sep !in b
    ensures Split(a + [sep] + b + [sep] + s, sep) == [a, b] + Split(s, sep)
  {
    hide Split;
    SplitFirst(a, b + [sep] + s, sep);
    SplitFirst(b, s, sep);
    assert a + [sep] + b + [sep] + s == a + [sep] + (b + [sep] + s);
  }

  lemma SplitThree(subject: string, a: string, b: string, c: string)
    requires '.' !in a && '.' !in b && '.' !in c && BeginsWith(subject, a + "." + b + "." + c)
    ensures var parts := Split(subject, '.'); |parts| >= 3 && parts[0] == a && parts[1] == b && parts[2] == c
  {
    hide Split;
    var start := a + ['.'] + b + ['.'];
    var tail := subject[|start|..];
    assert subject == start + tail;
    SplitTwice(a, b, tail, '.');
    if subject == start + c {
      SplitFirst(c, "", '.');
      assert tail == c;
    } else {
      var rest := tail[|c| + 1..];
      SplitFirst(c, rest, '.');
      assert start + c + "." <= subject;
      assert tail == c + ['.'] + rest;
    }
  }

  /** The durable name of a consumer on <any>.<team>.<bot>: team, consumer and bot, in this order. */
  lemma DurableNameForm(consumerName: string, root: string, team: string, bot: string)
    requires '.' !in root && '.' !in team && '.' !in bot
    ensures var subject := root + "." + team + "." + bot;
            && |Split(subject, '.')| >= SUBJECT_PARTS
            && DurableName(consumerName, subject) == team + "_" + consumerName + "_" + bot
            && (consumerName != "" && '_' !in team && '_' !in consumerName && '_' !in bot ==>
                  Split(DurableName(consumerName, subject), '_') == [team, consumerName, bot])
  {
    var subject := root + "." + team + "." + bot;
    SplitThree(subject, root, team, bot);
    if '_' !in team && '_' !in consumerName && '_' !in bot {
      SplitTwice(team, consumerName, bot, '_');
      SplitFirst(bot, "", '_');
    }
  }

  /** A consumer of one subject: what becomes one NATS consumer. */
  datatype Route = Route(cfg: ConsumerConfig, subject: string)

  function RoutesOf(c: ConsumerConfig, n: nat): seq<Route>
    requires n <= |c.subjects|
  {
    seq(n, j requires 0 <= j < n => Route(c, c.subjects[j]))
  }

  /** The routes of the first n consumers, in the order of the config. */
  function Routes(consumers: seq<ConsumerConfig>, n: nat): seq<Route>
    requires n <= |consumers|
  {
    if n == 0 then [] else Routes(consumers, n - 1) + RoutesOf(consumers[n - 1], |consumers[n - 1].subjects|)
  }

  function AllRoutes(cfg: NotificationConfig): seq<Route> {
    Routes(cfg.consumers, |cfg.consumers|)
  }

  lemma {:induction false} RouteOfConsumer(consumers: seq<ConsumerConfig>, n: nat, m: nat)
    requires n <= |consumers| && m < |Routes(consumers, n)|
    ensures Routes(consumers, n)[m].cfg in consumers
    ensures Routes(consumers, n)[m].subject in Routes(consumers, n)[m].cfg.subjects
  {
    if m < |Routes(consumers, n - 1)| {
      RouteOfConsumer(consumers, n - 1, m);
    }
  }

  /** Every subject of every consumer has its route, at its place. */
  lemma {:induction false} EveryRoute(consumers: seq<ConsumerConfig>, k: nat, n: nat, j: nat)
    requires n < k <= |consumers| && j < |consumers[n].subjects|
    ensures |Routes(consumers, n + 1)| == |Routes(consumers, n)| + |consumers[n].subjects|
    ensures var m := |Routes(consumers, n)| + j;
            m < |Routes(consumers, k)| && Routes(consumers, k)[m] == Route(consumers[n], consumers[n].subjects[j])
  {
    if n + 1 < k {
      EveryRoute(consumers, k - 1, n, j);
    }
  }

  predicate AllValid(routes: seq<Route>) {
    forall r | r in routes :: ValidSubject(r.subject)
  }

  ghost predicate DistinctNames(routes: seq<Route>)
    requires AllValid(routes)
  {
    forall m, n | 0 <= m < n < |routes| ::
      DurableName(routes[m].cfg.consumerName, routes[m].subject) !=
      DurableName(routes[n].cfg.consumerName, routes[n].subject)
  }

  // ----- what a valid config is -----

  ghost predicate NamesUnique(consumers: seq<ConsumerConfig>) {
    && (forall c | c in consumers :: c.consumerName != "")
    && (forall m, n | 0 <= m < n < |consumers| :: consumers[m].consumerName != consumers[n].consumerName)
  }

  predicate HasId(channels: seq<Channel>, id: string) {
    exists n :: 0 <= n < |channels| && channels[n].id == id
  }

  predicate KnownKind(kind: string) {
    kind in {TELEGRAM, DISCORD, OPSGENIE, SLACK}
  }

  function ChannelsOf(cfg: NotificationConfig, kind: string): seq<Channel> {
    if kind == TELEGRAM then cfg.telegramChannels
    else if kind == DISCORD then cfg.discordChannels
    else if kind == OPSGENIE then cfg.opsGenieChannels
    else if kind == SLACK then cfg.slackChannels
    else []
  }

  predicate ChannelKnown(cfg: NotificationConfig, c: ConsumerConfig) {
    KnownKind(c.kind) && HasId(ChannelsOf(cfg, c.kind), c.channelId)
  }

  predicate SeveritiesKnown(levels: seq<string>, c: ConsumerConfig) {
    c.severities != [] && forall s | s in c.severities :: s in levels
  }

  ghost predicate SubjectsValid(cfg: NotificationConfig) {
    && (forall c | c in cfg.consumers :: c.subjects != [])
    && AllValid(AllRoutes(cfg)) && DistinctNames(AllRoutes(cfg))
  }

  ghost predicate Accepts(cfg: NotificationConfig) {
    && cfg.consumers != [] && cfg.severityLevels != []
    && NamesUnique(cfg.consumers)
    && (forall c | c in cfg.consumers :: ChannelKnown(cfg, c))
    && (forall c | c in cfg.consumers :: SeveritiesKnown(cfg.severityLevels, c))
    && SubjectsValid(cfg)
  }

  /** The check an error comes from, in the order in which the checks are made. */
  function CheckOf(e: ConfigError): nat {
    match e
    case NoConsumers => 0
    case NoSeverityLevels => 1
    case EmptyConsumerName | DuplicatedConsumerName => 2
    case UnknownChannel | UnknownType => 3
    case NoSeverities | UnknownSeverity => 4
    case NoSubjects | InvalidSubject | EmptySubjectPart | DurableNameCollision => 5
  }

  /** The first check the config fails, 6 if it fails none. */
  ghost function FirstFailed(cfg: NotificationConfig): nat {
    if cfg.consumers == [] then 0
    else if cfg.severityLevels == [] then 1
    else if !NamesUnique(cfg.consumers) then 2
    else if exists c :: c in cfg.consumers && !ChannelKnown(cfg, c) then 3
    else if exists c :: c in cfg.consumers && !SeveritiesKnown(cfg.severityLevels, c) then 4
    else if !SubjectsValid(cfg) then 5
    else 6
  }

  /** The derived sets hold what the config lists. */
  predicate Derived(c: ConsumerConfig)
    reads c
  {
    && c.severitySet == (set s | s in c.severities)
    && c.findingFilterMap == (set a | a in c.filter)
  }

  // ----- the validation -----

  method ValidateUniqueConsumerNames(consumers: seq<ConsumerConfig>) returns (e: Option<ConfigError>)
    ensures e.None? <==> NamesUnique(consumers)
    ensures e.Some? ==> CheckOf(e.value) == 2
  {
    var names: set<string> := {};
    for n := 0 to |consumers|
      invariant names == (set m | 0 <= m < n :: consumers[m].consumerName)
      invariant NamesUnique(consumers[..n])
    {
      var c := consumers[n];
      if c.consumerName == "" {
        assert c in consumers;
        return Some(EmptyConsumerName);
      }
      if c.consumerName in names {
        return Some(DuplicatedConsumerName);
      }
      names := names + {c.consumerName};
      assert forall x | x in consumers[..n + 1] :: x in consumers[..n] || x == c;
    }
    assert consumers[..|consumers|] == consumers;
    return None;
  }

  method Ids(channels: seq<Channel>) returns (ids: set<string>)
    ensures forall id :: id in ids <==> HasId(channels, id)
  {
    ids := {};
    for n := 0 to |channels|
      invariant forall id :: id in ids <==> exists m :: 0 <= m < n && channels[m].id == id
    {
      ids := ids + {channels[n].id};
    }
  }

  method ValidateChannelRefs(cfg: NotificationConfig) returns (e: Option<ConfigError>)
    ensures e.None? <==> forall c | c in cfg.consumers :: ChannelKnown(cfg, c)
    ensures e.Some? ==> CheckOf(e.value) == 3
  {
    var telegram := Ids(cfg.telegramChannels);
    var discord := Ids(cfg.discordChannels);
    var opsgenie := Ids(cfg.opsGenieChannels);
    var slack := Ids(cfg.slackChannels);
    for n := 0 to |cfg.consumers|
      invariant forall m | 0 <= m < n :: ChannelKnown(cfg, cfg.consumers[m])
    {
      var c := cfg.consumers[n];
      var known: set<string>;
      if c.kind == TELEGRAM {
        known := telegram;
      } else if c.kind == DISCORD {
        known := discord;
      } else if c.kind == OPSGENIE {
        known := opsgenie;
      } else if c.kind == SLACK {
        known := slack;
      } else {
        assert !ChannelKnown(cfg, c);
        return Some(UnknownType);
      }
      assert forall id :: id in known <==> HasId(ChannelsOf(cfg, c.kind), id);
      if c.channelId !in known {
        assert !ChannelKnown(cfg, c);
        return Some(UnknownChannel);
      }
    }
    return None;
  }

  /** Checks the severities of one consumer and fills in its derived sets. */
  method DeriveSets(levels: set<string>, c: ConsumerConfig) returns (e: Option<ConfigError>)
    modifies c
    ensures e.None? <==> c.severities != [] && forall s | s in c.severities :: s in levels
    ensures e.None? ==> Derived(c)
    ensures e.Some? ==> CheckOf(e.value) == 4
  {
    if c.severities == [] {
      return Some(NoSeverities);
    }
    var severitySet: set<string>, findingFilter: set<string> := {}, {};
    for n := 0 to |c.severities|
      invariant severitySet == (set m | 0 <= m < n :: c.severities[m])
      invariant forall m | 0 <= m < n :: c.severities[m] in levels
    {
      if c.severities[n] !in levels {
        return Some(UnknownSeverity);
      }
      severitySet := severitySet + {c.severities[n]};
    }
    for n := 0 to |c.filter|
      invariant findingFilter == (set m | 0 <= m < n :: c.filter[m])
    {
      findingFilter := findingFilter + {c.filter[n]};
    }
    c.severitySet, c.findingFilterMap := severitySet, findingFilter;
    return None;
  }

  method ValidateSeverities(cfg: NotificationConfig) returns (e: Option<ConfigError>)
    modifies cfg.consumers
    ensures e.None? <==> forall c | c in cfg.consumers :: SeveritiesKnown(cfg.severityLevels, c)
    ensures e.None? ==> forall c | c in cfg.consumers :: Derived(c)
    ensures e.Some? ==> CheckOf(e.value) == 4
  {
    var levels := set s | s in cfg.severityLevels;
    for n := 0 to |cfg.consumers|
      invariant forall m | 0 <= m < n ::
                  SeveritiesKnown(cfg.severityLevels, cfg.consumers[m]) && Derived(cfg.consumers[m])
    {
      e := DeriveSets(levels, cfg.consumers[n]);
      if e.Some? {
        assert !SeveritiesKnown(cfg.severityLevels, cfg.consumers[n]);
        return;
      }
    }
    return None;
  }

  lemma {:induction false} RoutesGrow(consumers: seq<ConsumerConfig>, m: nat, n: nat)
    requires m <= n <= |consumers|
    ensures Routes(consumers, m) <= Routes(consumers, n)
  {
    if m < n {
      RoutesGrow(consumers, m, n - 1);
    }
  }

  /** The names of these routes. */
  ghost function NamesOf(routes: seq<Route>): set<string>
    requires AllValid(routes)
  {
    set n | 0 <= n < |routes| :: DurableName(routes[n].cfg.consumerName, routes[n].subject)
  }

  /** One more route keeps the names distinct if and only if its name is new. */
  lemma OneMoreRoute(routes: seq<Route>, r: Route)
    requires AllValid(routes) && ValidSubject(r.subject)
    ensures AllValid(routes + [r])
    ensures DistinctNames(routes + [r]) <==>
              DistinctNames(routes) && DurableName(r.cfg.consumerName, r.subject) !in NamesOf(routes)
    ensures NamesOf(routes + [r]) == NamesOf(routes) + {DurableName(r.cfg.consumerName, r.subject)}
  {
    var all := routes + [r];
    assert forall n | 0 <= n < |routes| :: all[n] == routes[n];
    assert all[|routes|] == r;
    if DistinctNames(all) {
      assert DistinctNames(routes);
    }
  }

  /** A bad prefix of the routes makes the whole config bad. */
  lemma PrefixDecides(routes: seq<Route>, prefix: seq<Route>)
    requires prefix <= routes && AllValid(routes) && DistinctNames(routes)
    ensures AllValid(prefix) && DistinctNames(prefix)
  {
    assert forall r | r in prefix :: r in routes;
    assert forall n | 0 <= n < |prefix| :: prefix[n] == routes[n];
  }

  lemma RoutesWithin(cfg: NotificationConfig, n: nat, j: nat)
    requires n < |cfg.consumers| && j <= |cfg.consumers[n].subjects|
    ensures Routes(cfg.consumers, n) + RoutesOf(cfg.consumers[n], j) <= AllRoutes(cfg)
  {
    var all := Routes(cfg.consumers, n + 1);
    RoutesGrow(cfg.consumers, n + 1, |cfg.consumers|);
    assert Routes(cfg.consumers, n) + RoutesOf(cfg.consumers[n], j) <= all;
  }

  method ValidateSubjects(cfg: NotificationConfig) returns (e: Option<ConfigError>)
    ensures e.None? <==> SubjectsValid(cfg)
    ensures e.Some? ==> CheckOf(e.value) == 5
  {
    hide NamesOf, DistinctNames, AllValid, ValidSubject, DurableName, Routes;
    assert AllValid([]) && NamesOf([]) == {} && DistinctNames([]) && Routes(cfg.consumers, 0) == [] by {
      NoRoutes(cfg.consumers);
    }
    var durableNames: set<string> := {};
    for n := 0 to |cfg.consumers|
      invariant forall m | 0 <= m < n :: cfg.consumers[m].subjects != []
      invariant AllValid(Routes(cfg.consumers, n)) && DistinctNames(Routes(cfg.consumers, n))
      invariant durableNames == NamesOf(Routes(cfg.consumers, n))
    {
      var c := cfg.consumers[n];
      if |c.subjects| == 0 {
        assert c in cfg.consumers;
        return Some(NoSubjects);
      }
      ghost var before := Routes(cfg.consumers, n);
      assert before + RoutesOf(c, 0) == before;
      for j := 0 to |c.subjects|
        invariant AllValid(before + RoutesOf(c, j)) && DistinctNames(before + RoutesOf(c, j))
        invariant durableNames == NamesOf(before + RoutesOf(c, j))
      {
        var subject := c.subjects[j];
        assert before + RoutesOf(c, j + 1) == (before + RoutesOf(c, j)) + [Route(c, subject)];
        RoutesWithin(cfg, n, j + 1);
        if !ValidSubject(subject) {
          InvalidRouteRejects(AllRoutes(cfg), before + RoutesOf(c, j + 1), Route(c, subject));
          var parts := Split(subject, '.');
          return Some(if |parts| < SUBJECT_PARTS then InvalidSubject else EmptySubjectPart);
        }
        OneMoreRoute(before + RoutesOf(c, j), Route(c, subject));
        ValidSubjectHasParts(subject);
        var durable := DurableName(c.consumerName, subject);
        if durable in durableNames {
          if AllValid(AllRoutes(cfg)) && DistinctNames(AllRoutes(cfg)) {
            PrefixDecides(AllRoutes(cfg), before + RoutesOf(c, j + 1));
          }
          return Some(DurableNameCollision);
        }
        durableNames := durableNames + {durable};
      }
      RoutesStep(cfg.consumers, n);
    }
    return None;
  }

  lemma NoRoutes(consumers: seq<ConsumerConfig>)
    ensures Routes(consumers, 0) == []
    ensures AllValid([]) && NamesOf([]) == {} && DistinctNames([])
  {
  }

  lemma RoutesStep(consumers: seq<ConsumerConfig>, n: nat)
    requires n < |consumers|
    ensures Routes(consumers, n + 1) == Routes(consumers, n) + RoutesOf(consumers[n], |consumers[n].subjects|)
  {
  }

  lemma ValidSubjectHasParts(subject: string)
    requires ValidSubject(subject)
    ensures |Split(subject, '.')| >= SUBJECT_PARTS
  {
  }

  lemma InvalidRouteRejects(routes: seq<Route>, prefix: seq<Route>, r: Route)
    requires prefix <= routes && r in prefix && !ValidSubject(r.subject)
    ensures !AllValid(routes)
  {
    assert r in routes;
  }

  /** A config is accepted if and only if it is valid, and then the derived sets are filled in. */
  method ValidateConfig(cfg: NotificationConfig) returns (e: Option<ConfigError>)
    modifies cfg.consumers
    ensures e.None? <==> Accepts(cfg)
    ensures e.Some? ==> CheckOf(e.value) == FirstFailed(cfg)
    ensures e.None? ==> forall c | c in cfg.consumers :: Derived(c) && c.severitySet != {}
  {
    hide NamesUnique, ChannelKnown, SubjectsValid;
    if |cfg.consumers| == 0 {
      return Some(NoConsumers);
    }
    if |cfg.severityLevels| == 0 {
      return Some(NoSeverityLevels);
    }
    e := ValidateUniqueConsumerNames(cfg.consumers);
    if e.Some? {
      return;
    }
    e := ValidateChannelRefs(cfg);
    if e.Some? {
      return;
    }
    e := ValidateSeverities(cfg);
    if e.Some? {
      return;
    }
    e := ValidateSubjects(cfg);
    forall c | e.None? && c in cfg.consumers ensures c.severitySet != {} {
      assert SeveritiesKnown(cfg.severityLevels, c);
      assert c.severities[0] in c.severitySet;
    }
  }
}
