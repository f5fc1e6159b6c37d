/**
 The minute in the theorems about runs is exact. A handler that finds "sent" and
 shortens the status may do so after that status expired and another handler has
 claimed the key anew: the claim then lives for one minute only. A send that takes
 a whole minute outlives it.
 */
module QuorumMinute {
  import opened Wrappers
  import opened GoInts
  import opened Redis
  import opened QuorumModel
  import opened QuorumSteps
  import opened QuorumMutex
  import opened QuorumRetry
  import opened QuorumGather

  // ----- runs whose calls take a minute at most -----

  ghost predicate WithinMinute(c: Cluster) {
    forall i :: At(c, i).pc.Idle? || c.store.now <= At(c, i).start + MIN_1
  }

  /** Calls last at most a minute, every command succeeds, nothing is evicted and nobody crashes. */
  ghost predicate Brief(cfg: Config, run: seq<Label>) {
    && WithinMinute(Exec(cfg, run))
    && (run != [] ==>
          && Brief(cfg, run[..|run| - 1])
          && NoFailure(run[|run| - 1]) && !run[|run| - 1].Evict? && !run[|run| - 1].Crash?)
  }

  lemma BriefStep(cfg: Config, run: seq<Label>, e: Label)
    requires Brief(cfg, run) && NoFailure(e) && !e.Evict? && !e.Crash?
    requires e.Tick? ==> forall i ::
               At(Exec(cfg, run), i).pc.Idle? || Exec(cfg, run).store.now + e.ms <= At(Exec(cfg, run), i).start + MIN_1
    ensures Brief(cfg, run + [e])
  {
    hide Apply, Exec, CoolDownKey;
    ExecOne(cfg, run, e);
    var c, c' := Exec(cfg, run), Exec(cfg, run + [e]);
    ApplyStatuses(cfg, c, e);
    forall i ensures At(c', i).pc.Idle? || c'.store.now <= At(c', i).start + MIN_1 {
      if Runs(c, e) {
        StepLocals(cfg, c, e);
        Flow(cfg, e.who, c.store, At(c, e.who), e.reply.Done?, e.delivery);
      } else {
        OtherLocals(cfg, c, e, i);
      }
    }
    assert (run + [e])[..|run|] == run;
  }

  lemma {:induction false} BriefBurst(cfg: Config, run: seq<Label>, i: Instance, d: Delivery, n: nat)
    requires Brief(cfg, run)
    ensures Brief(cfg, run + Burst(i, d, n))
  {
    hide Brief;
    if n == 0 {
      assert run + Burst(i, d, 0) == run;
    } else {
      BriefBurst(cfg, run, i, d, n - 1);
      assert run + Burst(i, d, n) == (run + Burst(i, d, n - 1)) + [Step(i, Done, d)];
      BriefStep(cfg, run + Burst(i, d, n - 1), Step(i, Done, d));
    }
  }

  lemma BriefCall(cfg: Config, run: seq<Label>, i: Instance, f: Finding, d: Delivery, n: nat)
    requires Brief(cfg, run)
    ensures Brief(cfg, run + Calls(i, f, d, n))
  {
    hide Brief;
    BriefStep(cfg, run, Receive(i, Parsed(f)));
    BriefBurst(cfg, run + [Receive(i, Parsed(f))], i, d, n);
    assert run + Calls(i, f, d, n) == (run + [Receive(i, Parsed(f))]) + Burst(i, d, n);
  }

  /** A call of an idle instance, as a part of a run. */
  lemma Plays(cfg: Config, run: seq<Label>, i: Instance, f: Finding, d: Delivery, n: nat)
    requires Brief(cfg, run) && At(Exec(cfg, run), i).pc.Idle? && |f.uniqueKey| >= 4
    ensures var c, c' := Exec(cfg, run), Exec(cfg, run + Calls(i, f, d, n));
            && Brief(cfg, run + Calls(i, f, d, n))
            && Seen(c', i) == Call(cfg, i, Seen(c, i), f, d, n)
            && (forall j | j != i :: At(c', j) == At(c, j))
  {
    hide Brief, Exec, Call;
    BriefCall(cfg, run, i, f, d, n);
    CallIsRun(cfg, run, i, f, d, n);
  }

  /** Time passes, not beyond the minute of any call in progress. */
  lemma TimePasses(cfg: Config, run: seq<Label>, ms: nat)
    requires Brief(cfg, run)
    requires var c := Exec(cfg, run); forall i :: At(c, i).pc.Idle? || c.store.now + ms <= At(c, i).start + MIN_1
    ensures var c, c' := Exec(cfg, run), Exec(cfg, run + [Tick(ms)]);
            && Brief(cfg, run + [Tick(ms)])
            && c'.store == c.store.(now := c.store.now + ms) && c'.sends == c.sends
            && (forall j :: At(c', j) == At(c, j))
  {
    hide Brief, Exec, Call;
    BriefStep(cfg, run, Tick(ms));
    TickIsWait(cfg, run, ms);
  }

  // ----- the branch that finds the finding sent -----

  lemma NextShortens(cfg: Config, i: Instance, v: View, d: Delivery)
    ensures var k, l, st, v' := v.local.finding.uniqueKey, v.local, v.store, Next(cfg, i, v, d);
            && (l.pc.ReadStatus? && Exists(st.status, k, st.now) && st.status[k].value == SENT ==>
                  v' == v.(local := Finish(l, Ack).(pc := ForgetSent)))
            && (l.pc.ForgetSent? ==> v' == v.(local := l.(cache := l.cache - {k}, pc := ShortenCount)))
            && (l.pc.ShortenCount? ==>
                  v' == v.(store := st.(count := Expire(st.count, k, st.now, MIN_1)), local := l.(pc := ShortenStatus)))
            && (l.pc.ShortenStatus? ==>
                  v' == v.(store := st.(status := Expire(st.status, k, st.now, MIN_1)), local := l.(pc := Idle)))
  {
  }

  /** While the status is "sent", the finding is acknowledged, and the counter gets one minute more. */
  lemma FindsSent(cfg: Config, i: Instance, v: View, f: Finding, d: Delivery)
    requires ReachesQuorum(cfg, v, f)
    requires Exists(v.store.status, f.uniqueKey, v.store.now) && v.store.status[f.uniqueKey].value == SENT
    ensures Call(cfg, i, v, f, d, 6) ==
            View(StoreCounted(v, f.uniqueKey).(
                   count := Expire(StoreCounted(v, f.uniqueKey).count, f.uniqueKey, v.store.now, MIN_1)),
                 Local(ShortenStatus, f, v.store.now, v.local.cache - {f.uniqueKey}, [Ack]),
                 v.sends)
  {
    hide Next;
    CountsFinding(cfg, i, v, f, d);
    NextShortens(cfg, i, Call(cfg, i, v, f, d, 3), d);
    NextShortens(cfg, i, Call(cfg, i, v, f, d, 4), d);
    NextShortens(cfg, i, Call(cfg, i, v, f, d, 5), d);
    assert v.local.cache + {f.uniqueKey} - {f.uniqueKey} == v.local.cache - {f.uniqueKey};
  }

  lemma {:induction false} BriefHelpers(cfg: Config, run: seq<Label>, base: Instance, f: Finding, n: nat)
    requires Brief(cfg, run)
    ensures Brief(cfg, run + Helpers(base, f, n))
  {
    hide Brief, Calls;
    if n == 0 {
      assert run + Helpers(base, f, 0) == run;
    } else {
      var m := if n == 1 then 4 else 3;
      BriefHelpers(cfg, run, base, f, n - 1);
      BriefCall(cfg, run + Helpers(base, f, n - 1), base + n - 1, f, NotDelivered, m);
      assert run + Helpers(base, f, n) ==
             (run + Helpers(base, f, n - 1)) + Calls(base + n - 1, f, NotDelivered, m);
    }
  }

  lemma BriefGather(cfg: Config, run: seq<Label>, q: nat, i: Instance, f: Finding, d: Delivery, n: nat)
    requires Brief(cfg, run)
    ensures Brief(cfg, run + Gather(q, i, f, d, n))
  {
    hide Brief, Calls, Helpers;
    var first := if q <= 1 then Calls(i, f, NotDelivered, 4) else Helpers(i + 1, f, q - 1);
    if q <= 1 {
      BriefCall(cfg, run, i, f, NotDelivered, 4);
    } else {
      BriefHelpers(cfg, run, i + 1, f, q - 1);
    }
    BriefCall(cfg, run + first, i, f, d, n);
    assert run + Gather(q, i, f, d, n) == (run + first) + Calls(i, f, d, n);
  }

  // ----- the run -----

  ghost predicate OthersIdle(c: Cluster, busy: set<Instance>) {
    forall j | j !in busy :: At(c, j).pc.Idle?
  }

  /** From this instance on nobody has received anything. */
  ghost predicate FreshFrom(c: Cluster, n: nat) {
    forall j | j >= n :: At(c, j) == FRESH
  }

  /**
   Act one, at 60,000 ms: f was sent at the start, and instance 0, seeing it again at
   once, has given counter and status a last minute, each at the end of its own.
   */
  predicate Shortened(cfg: Config, c: Cluster, f: Finding) {
    var k := f.uniqueKey;
    && c.store.now == 60_000
    && !Exists(c.store.count, k, 60_000)
    && k in c.store.status && c.store.status[k] == Entry(SENT, Some(120_000))
    && c.store.coolDown.Keys == {CoolDownKey(cfg, f)}
    && |c.sends| == 1
  }

  lemma ActOne(cfg: Config, f: Finding) returns (run: seq<Label>)
    requires Passes(cfg, f) && 1 <= cfg.quorumSize <= INT64_MAX
    ensures Brief(cfg, run) && Shortened(cfg, Exec(cfg, run), f)
    ensures OthersIdle(Exec(cfg, run), {}) && FreshFrom(Exec(cfg, run), cfg.quorumSize)
  {
    var none, q, k := NotDelivered, cfg.quorumSize, f.uniqueKey;
    hide Exec, Apply, Call, Calls, Next, Gather, Brief, CoolDownKey;
    InitIsBrief(cfg);
    BriefGather(cfg, [], q, 0, f, Delivered, 9);
    var v := Gathered(cfg, [], 0, f, Delivered, 9);
    DeliveredSendIsBooked(cfg, 0, v, f);
    run := [] + Gather(q, 0, f, Delivered, 9);
    assert Exec(cfg, run).store.count == CountOf(INIT.store, k, q);
    Plays(cfg, run, 0, f, none, 6);
    FindsSent(cfg, 0, Seen(Exec(cfg, run), 0), f, none);
    run := run + Calls(0, f, none, 6);
    TimePasses(cfg, run, 60_000);
    run := run + [Tick(60_000)];
    BriefStep(cfg, run, Step(0, Done, none));
    OneOperation(cfg, run, 0);
    NextShortens(cfg, 0, Seen(Exec(cfg, run), 0), none);
    run := run + [Step(0, Done, none)];
  }

  /**
   Act two, at 119,999 ms: a second quorum has counted f, and its last instance has
   just read "sent" and is about to shorten the status.
   */
  predicate AboutToShorten(cfg: Config, c: Cluster, f: Finding) {
    var k, q := f.uniqueKey, cfg.quorumSize;
    && c.store.now == 119_999
    && k in c.store.count && c.store.count[k] == Entry(q, Some(179_999))
    && k in c.store.status && c.store.status[k] == Entry(SENT, Some(120_000))
    && c.store.coolDown.Keys == {CoolDownKey(cfg, f)}
    && At(c, q).pc.ShortenStatus? && At(c, q).finding == f && At(c, q).start == 119_999
    && |c.sends| == 1
  }

  lemma ActTwo(cfg: Config, f: Finding, run1: seq<Label>) returns (run: seq<Label>)
    requires Passes(cfg, f) && 1 <= cfg.quorumSize <= INT64_MAX
    requires Brief(cfg, run1) && Shortened(cfg, Exec(cfg, run1), f)
    requires OthersIdle(Exec(cfg, run1), {}) && FreshFrom(Exec(cfg, run1), cfg.quorumSize)
    ensures Brief(cfg, run) && AboutToShorten(cfg, Exec(cfg, run), f)
    ensures OthersIdle(Exec(cfg, run), {cfg.quorumSize}) && FreshFrom(Exec(cfg, run), 2 * cfg.quorumSize)
  {
    var none, q, k := NotDelivered, cfg.quorumSize, f.uniqueKey;
    hide Exec, Apply, Call, Calls, Next, Gather, Brief, CoolDownKey;
    TimePasses(cfg, run1, 59_999);
    run := run1 + [Tick(59_999)];
    BriefGather(cfg, run, q, q, f, none, 6);
    var v := Gathered(cfg, run, q, f, none, 6);
    FindsSent(cfg, q, v, f, none);
    run := run + Gather(q, q, f, none, 6);
  }

  /**
   Act three, at 120,000 ms: the status has expired, an instance has claimed the key
   for g, which has the key of f and another cool-down, and the one that read "sent"
   has shortened that claim to one minute.
   */
  predicate ClaimShortened(cfg: Config, c: Cluster, f: Finding, g: Finding) {
    var k, q := f.uniqueKey, cfg.quorumSize;
    && c.store.now == 120_000
    && k in c.store.count && c.store.count[k] == Entry(q + 1, Some(179_999))
    && k in c.store.status && c.store.status[k] == Entry(SENDING, Some(180_000))
    && c.store.coolDown.Keys == {CoolDownKey(cfg, f)}
    && At(c, 2 * q).pc.Send? && At(c, 2 * q).finding == g && At(c, 2 * q).start == 120_000
    && |c.sends| == 1
  }

  lemma ActThree(cfg: Config, f: Finding, g: Finding, run2: seq<Label>) returns (run: seq<Label>)
    requires Passes(cfg, g) && 1 <= cfg.quorumSize < INT64_MAX
    requires f.uniqueKey == g.uniqueKey && CoolDownKey(cfg, f) != CoolDownKey(cfg, g)
    requires Brief(cfg, run2) && AboutToShorten(cfg, Exec(cfg, run2), f)
    requires OthersIdle(Exec(cfg, run2), {cfg.quorumSize}) && FreshFrom(Exec(cfg, run2), 2 * cfg.quorumSize)
    ensures Brief(cfg, run) && ClaimShortened(cfg, Exec(cfg, run), f, g)
    ensures OthersIdle(Exec(cfg, run), {2 * cfg.quorumSize}) && FreshFrom(Exec(cfg, run), 2 * cfg.quorumSize + 1)
  {
    var none, q := NotDelivered, cfg.quorumSize;
    hide Exec, Apply, Call, Calls, Next, Brief, CoolDownKey;
    TimePasses(cfg, run2, 1);
    run := run2 + [Tick(1)];
    Plays(cfg, run, 2 * q, g, Delivered, 6);
    ReachesSend(cfg, 2 * q, Seen(Exec(cfg, run), 2 * q), g, Delivered);
    run := run + Calls(2 * q, g, Delivered, 6);
    BriefStep(cfg, run, Step(q, Done, none));
    OneOperation(cfg, run, q);
    NextShortens(cfg, q, Seen(Exec(cfg, run), q), none);
    run := run + [Step(q, Done, none)];
  }

  /** Act four, at 180,000 ms: a third quorum claims the key while that send goes on. */
  lemma ActFour(cfg: Config, f: Finding, g: Finding, run3: seq<Label>) returns (run: seq<Label>)
    requires Passes(cfg, g) && 1 <= cfg.quorumSize <= INT64_MAX
    requires f.uniqueKey == g.uniqueKey && CoolDownKey(cfg, f) != CoolDownKey(cfg, g)
    requires Brief(cfg, run3) && ClaimShortened(cfg, Exec(cfg, run3), f, g)
    requires OthersIdle(Exec(cfg, run3), {2 * cfg.quorumSize}) && FreshFrom(Exec(cfg, run3), 2 * cfg.quorumSize + 1)
    ensures var c, a, b := Exec(cfg, run), 2 * cfg.quorumSize, 2 * cfg.quorumSize + 1;
            && Brief(cfg, run) && |c.sends| == 1
            && At(c, a).pc.Send? && At(c, a).finding == g && At(c, b).pc.Send? && At(c, b).finding == g
  {
    var q, b := cfg.quorumSize, 2 * cfg.quorumSize + 1;
    hide Exec, Apply, Call, Calls, Next, Gather, Brief, CoolDownKey;
    TimePasses(cfg, run3, 60_000);
    run := run3 + [Tick(60_000)];
    BriefGather(cfg, run, q, b, g, Delivered, 6);
    var v := Gathered(cfg, run, b, g, Delivered, 6);
    ReachesSend(cfg, b, v, g, Delivered);
    run := run + Gather(q, b, g, Delivered, 6);
  }

  /** An accepted send of an instance that is sending. */
  lemma Sends(cfg: Config, run: seq<Label>, i: Instance)
    requires Brief(cfg, run) && At(Exec(cfg, run), i).pc.Send?
    ensures var e := Step(i, Done, Delivered);
            var c, c' := Exec(cfg, run), Exec(cfg, run + [e]);
            && Brief(cfg, run + [e]) && c'.sends == c.sends + [RecordOf(cfg, c, i)] && c'.store.now == c.store.now
            && At(c', i).pc.MarkSent? && At(c', i).finding == At(c, i).finding
            && (forall j | j != i :: At(c', j) == At(c, j))
  {
    hide Exec, Apply, Next, Brief, CoolDownKey;
    var e := Step(i, Done, Delivered);
    BriefStep(cfg, run, e);
    ExecOne(cfg, run, e);
    NextIsApply(cfg, Exec(cfg, run), i, Delivered);
    NextBooksSend(cfg, i, Seen(Exec(cfg, run), i));
  }

  /**
   Calls of exactly a minute break both theorems, for every quorum, although every
   command succeeds and nothing is evicted: two handlers are between claim and
   bookkeeping at once, and they send the same finding at the same time.
   */
  lemma MinuteLongCallSendsTwice(cfg: Config, f: Finding, g: Finding)
    requires Passes(cfg, f) && Passes(cfg, g) && 1 <= cfg.quorumSize < INT64_MAX
    requires f.uniqueKey == g.uniqueKey && CoolDownKey(cfg, f) != CoolDownKey(cfg, g)
    ensures exists run, a, b ::
              && Brief(cfg, run) && a != b
              && Holds(Exec(cfg, run), a, g.uniqueKey) && Holds(Exec(cfg, run), b, g.uniqueKey)
              && |Exec(cfg, run).sends| == 3
              && Exec(cfg, run).sends[1].key == Exec(cfg, run).sends[2].key
              && Exec(cfg, run).sends[1].coolDownKey == Exec(cfg, run).sends[2].coolDownKey
              && Exec(cfg, run).sends[1].time == Exec(cfg, run).sends[2].time
  {
    hide Exec, Brief, CoolDownKey;
    var a, b := 2 * cfg.quorumSize, 2 * cfg.quorumSize + 1;
    var run1 := ActOne(cfg, f);
    var run2 := ActTwo(cfg, f, run1);
    var run3 := ActThree(cfg, f, g, run2);
    var run4 := ActFour(cfg, f, g, run3);
    Sends(cfg, run4, a);
    Sends(cfg, run4 + [Step(a, Done, Delivered)], b);
    var run := run4 + [Step(a, Done, Delivered)] + [Step(b, Done, Delivered)];
    assert Brief(cfg, run) && Holds(Exec(cfg, run), a, g.uniqueKey) && Holds(Exec(cfg, run), b, g.uniqueKey);
  }

  lemma InitIsBrief(cfg: Config)
    ensures Brief(cfg, []) && Exec(cfg, []) == INIT
  {
  }
}
