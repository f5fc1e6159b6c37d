/**
 What the theorems about runs cannot do without. Each lemma gives a run, for
 every configuration and finding of its kind, in which no command fails.
 */
module QuorumLimits {
  import opened GoInts
  import opened Redis
  import opened QuorumModel
  import opened QuorumRetry
  import opened QuorumGather

  // ----- the redelivery of a counted finding -----

  /** A counted finding whose counter is below the quorum is put back, and its cache entry renewed. */
  lemma WaitsAgain(cfg: Config, i: Instance, v: View, f: Finding, d: Delivery)
    requires Passes(cfg, f) && f.uniqueKey in v.local.cache && v.local.pc.Idle?
    requires Exists(v.store.count, f.uniqueKey, v.store.now)
    requires 0 <= v.store.count[f.uniqueKey].value < cfg.quorumSize
    ensures Call(cfg, i, v, f, d, 3) ==
            View(v.store,
                 Local(Idle, f, v.store.now, v.local.cache, [NakWithDelay(RESEND_QUORUM_MSG_AFTER)]),
                 v.sends)
  {
    hide Next;
    NextRedelivers(cfg, i, Call(cfg, i, v, f, d, 0), d);
    NextRedelivers(cfg, i, Call(cfg, i, v, f, d, 1), d);
    NextRedelivers(cfg, i, Call(cfg, i, v, f, d, 2), d);
    assert v.local.cache + {f.uniqueKey} == v.local.cache;
  }

  /** A counted finding whose counter is gone reaches the point that acknowledges it. */
  lemma FindsCounterGone(cfg: Config, i: Instance, v: View, f: Finding, d: Delivery)
    requires Passes(cfg, f) && f.uniqueKey in v.local.cache && v.local.pc.Idle?
    requires !Exists(v.store.count, f.uniqueKey, v.store.now)
    ensures Call(cfg, i, v, f, d, 3) ==
            View(v.store, Local(ForgetMissing, f, v.store.now, v.local.cache, []), v.sends)
  {
    hide Next;
    NextRedelivers(cfg, i, Call(cfg, i, v, f, d, 0), d);
    NextRedelivers(cfg, i, Call(cfg, i, v, f, d, 1), d);
    NextRedelivers(cfg, i, Call(cfg, i, v, f, d, 2), d);
    assert v.local.cache + {f.uniqueKey} == v.local.cache;
  }

  /** The acknowledgement itself. */
  lemma AcksMissing(cfg: Config, run: seq<Label>, i: Instance)
    requires At(Exec(cfg, run), i).pc.ForgetMissing?
    ensures var c := Exec(cfg, run);
            && Exec(cfg, run + [Step(i, Done, NotDelivered)]).acks == c.acks + [RecordOf(cfg, c, i)]
            && Exec(cfg, run + [Step(i, Done, NotDelivered)]).sends == c.sends
  {
    var c := Exec(cfg, run);
    assert (run + [Step(i, Done, NotDelivered)])[..|run|] == run;
    NextIsApply(cfg, c, i, NotDelivered);
    NextRedelivers(cfg, i, Seen(c, i), NotDelivered);
    hide Apply, Next;
  }

  /**
   Count keys have to last: an instance that alone counted a finding, and renewed
   its cache entry by seeing it again, acknowledges it unsent once the counter has
   expired.
   */
  lemma ExpiredCounterLosesFinding(cfg: Config, f: Finding)
    requires Passes(cfg, f) && cfg.quorumSize >= 2
    ensures exists run :: Swift(cfg, run) && Exec(cfg, run).acks != [] && Exec(cfg, run).sends == []
  {
    var none := NotDelivered;
    hide Exec, Apply, Call, Calls, Next, Swift;
    InitIsSwift(cfg);
    var run1 := [] + Calls(0, f, none, 4);
    CallIsRun(cfg, [], 0, f, none, 4);
    SwiftCall(cfg, [], 0, f, none, 4);
    FirstCount(cfg, 0, Seen(INIT, 0), f, none);
    var run2 := run1 + [Tick(MINS_10 - MIN_1)];
    SwiftStep(cfg, run1, Tick(MINS_10 - MIN_1));
    TickIsWait(cfg, run1, MINS_10 - MIN_1);
    var run3 := run2 + Calls(0, f, none, 3);
    CallIsRun(cfg, run2, 0, f, none, 3);
    SwiftCall(cfg, run2, 0, f, none, 3);
    WaitsAgain(cfg, 0, Seen(Exec(cfg, run2), 0), f, none);
    var run4 := run3 + [Tick(MIN_1)];
    SwiftStep(cfg, run3, Tick(MIN_1));
    TickIsWait(cfg, run3, MIN_1);
    var run5 := run4 + Calls(0, f, none, 3);
    CallIsRun(cfg, run4, 0, f, none, 3);
    SwiftCall(cfg, run4, 0, f, none, 3);
    FindsCounterGone(cfg, 0, Seen(Exec(cfg, run4), 0), f, none);
    var run6 := run5 + [Step(0, Done, none)];
    SwiftStep(cfg, run5, Step(0, Done, none));
    AcksMissing(cfg, run5, 0);
    assert Swift(cfg, run6);
  }

  // ----- a quorum of one -----

  /** A send that fails as the last contribution is about to delete the counter. */
  lemma LastContributionDrops(cfg: Config, i: Instance, v: View, f: Finding)
    requires ReadyToSend(cfg, v, f) && f.uniqueKey in v.local.cache && Counted(v, f.uniqueKey) == 1
    ensures Call(cfg, i, v, f, NotDelivered, 8) ==
            View(v.store.(status := SetFor(v.store.status, f.uniqueKey, SENDING, v.store.now, MINS_12),
                          count := Add(v.store.count, f.uniqueKey, v.store.now, -1)),
                 Local(DropCount(NACK_DELAY_MSG), f, v.store.now, v.local.cache, []),
                 v.sends)
  {
    hide Next;
    ReachesSend(cfg, i, v, f, NotDelivered);
    assert v.local.cache + {f.uniqueKey} == v.local.cache;
    NextRollsBack(cfg, i, Call(cfg, i, v, f, NotDelivered, 6), NotDelivered);
    NextRollsBack(cfg, i, Call(cfg, i, v, f, NotDelivered, 7), NotDelivered);
  }

  /** A counter that stands at zero is counted to one, as if it were new. */
  lemma CountsFromZero(cfg: Config, i: Instance, v: View, f: Finding, d: Delivery)
    requires Passes(cfg, f) && f.uniqueKey !in v.local.cache && v.local.pc.Idle?
    requires Exists(v.store.count, f.uniqueKey, v.store.now) && v.store.count[f.uniqueKey].value == 0
    ensures Call(cfg, i, v, f, d, 3) ==
            View(v.store.(count := Add(v.store.count, f.uniqueKey, v.store.now, 1)),
                 Local(SetCountTtl, f, v.store.now, v.local.cache + {f.uniqueKey}, []),
                 v.sends)
  {
    hide Next;
    NextCollects(cfg, i, Call(cfg, i, v, f, d, 0), d);
    NextCollects(cfg, i, Call(cfg, i, v, f, d, 1), d);
    NextRedelivers(cfg, i, Call(cfg, i, v, f, d, 2), d);
  }

  /**
   The quorum has to be two at least: with a quorum of one an instance counts the
   finding between the DECR and the DEL of another one's rollback, and then
   acknowledges it unsent. No command fails and no time passes.
   */
  lemma QuorumOfOneLosesFinding(cfg: Config, f: Finding)
    requires Passes(cfg, f) && cfg.quorumSize == 1
    ensures exists run ::
              && Swift(cfg, run) && (forall e | e in run :: Untroubled(e))
              && Exec(cfg, run).acks != [] && Exec(cfg, run).sends == []
  {
    var none := NotDelivered;
    hide Exec, Apply, Call, Calls, Next, Swift;
    InitIsSwift(cfg);
    var run1 := [] + Calls(0, f, none, 4);
    CallIsRun(cfg, [], 0, f, none, 4);
    SwiftCall(cfg, [], 0, f, none, 4);
    FirstCount(cfg, 0, Seen(INIT, 0), f, none);
    var run2 := run1 + Calls(0, f, none, 8);
    CallIsRun(cfg, run1, 0, f, none, 8);
    SwiftCall(cfg, run1, 0, f, none, 8);
    LastContributionDrops(cfg, 0, Seen(Exec(cfg, run1), 0), f);
    var run3 := run2 + Calls(1, f, none, 3);
    CallIsRun(cfg, run2, 1, f, none, 3);
    SwiftCall(cfg, run2, 1, f, none, 3);
    CountsFromZero(cfg, 1, Seen(Exec(cfg, run2), 1), f, none);
    QuorumOfOneEnds(cfg, f, run3);
    var run := ((run3 + [Step(0, Done, none)]) + [Step(1, Done, none)] + Calls(1, f, none, 3)) + [Step(1, Done, none)];
    assert Swift(cfg, run);
    CallsAreUntroubled(0, f, none, 4);
    CallsAreUntroubled(0, f, none, 8);
    CallsAreUntroubled(1, f, none, 3);
    assert forall e | e in run :: Untroubled(e);
  }

  predicate Untroubled(e: Label) {
    !e.Tick? && !e.Evict? && !e.Crash?
  }

  lemma CallsAreUntroubled(i: Instance, f: Finding, d: Delivery, n: nat)
    ensures forall e | e in Calls(i, f, d, n) :: Untroubled(e)
  {
  }

  lemma QuorumOfOneEnds(cfg: Config, f: Finding, run3: seq<Label>)
    requires Passes(cfg, f) && Swift(cfg, run3)
    requires var c := Exec(cfg, run3);
             && At(c, 0).pc.DropCount? && At(c, 0).finding == f
             && At(c, 1) == Local(SetCountTtl, f, c.store.now, {f.uniqueKey}, [])
             && c.sends == []
    ensures var none := NotDelivered;
            var run := ((run3 + [Step(0, Done, none)]) + [Step(1, Done, none)] + Calls(1, f, none, 3))
                       + [Step(1, Done, none)];
            Swift(cfg, run) && Exec(cfg, run).acks != [] && Exec(cfg, run).sends == []
  {
    var none := NotDelivered;
    hide Exec, Apply, Call, Calls, Next, Swift;
    var run4 := run3 + [Step(0, Done, none)];
    SwiftStep(cfg, run3, Step(0, Done, none));
    OneOperation(cfg, run3, 0);
    NextRollsBack(cfg, 0, Seen(Exec(cfg, run3), 0), none);
    var run5 := run4 + [Step(1, Done, none)];
    SwiftStep(cfg, run4, Step(1, Done, none));
    OneOperation(cfg, run4, 1);
    NextRedelivers(cfg, 1, Seen(Exec(cfg, run4), 1), none);
    var run6 := run5 + Calls(1, f, none, 3);
    SwiftCall(cfg, run5, 1, f, none, 3);
    CallIsRun(cfg, run5, 1, f, none, 3);
    FindsCounterGone(cfg, 1, Seen(Exec(cfg, run5), 1), f, none);
    SwiftStep(cfg, run6, Step(1, Done, none));
    AcksMissing(cfg, run6, 1);
  }

  // ----- a crash between a send and its cool-down -----

  /**
   An instance must not die between its send and the cool-down: the claim expires
   after twelve minutes, and another quorum sends the finding a second time.
   */
  lemma CrashAfterSendRepeatsIt(cfg: Config, f: Finding)
    requires Passes(cfg, f) && 1 <= cfg.quorumSize <= INT64_MAX
    ensures exists run ::
              && Swift(cfg, run)
              && |Exec(cfg, run).sends| == 2
              && Exec(cfg, run).sends[0].key == Exec(cfg, run).sends[1].key
              && Exec(cfg, run).sends[0].coolDownKey == Exec(cfg, run).sends[1].coolDownKey
              && Exec(cfg, run).sends[1].time == Exec(cfg, run).sends[0].time + MINS_12
  {
    hide Exec, Apply, Gather, Next, Swift, CoolDownKey;
    var q := cfg.quorumSize;
    InitIsSwift(cfg);
    QuorumSends(cfg, [], 0, f);
    var run1 := [] + Gather(q, 0, f, Delivered, 7);
    var run2 := run1 + [Crash(0)];
    SwiftStep(cfg, run1, Crash(0));
    ExecCrash(cfg, run1);
    var run3 := run2 + [Tick(MINS_12)];
    SwiftStep(cfg, run2, Tick(MINS_12));
    TickIsWait(cfg, run2, MINS_12);
    QuorumSends(cfg, run3, q, f);
    assert Swift(cfg, run3 + Gather(q, q, f, Delivered, 7));
  }

  lemma ExecCrash(cfg: Config, run: seq<Label>)
    ensures var c, c' := Exec(cfg, run), Exec(cfg, run + [Crash(0)]);
            && c'.store == c.store && c'.sends == c.sends && At(c', 0) == FRESH
            && (forall j | j != 0 :: At(c', j) == At(c, j))
  {
    assert (run + [Crash(0)])[..|run|] == run;
    hide LeaksAfterDrop;
  }

  // ----- one content under two keys -----

  /**
   The cool-down does not protect two findings with the same content and different
   keys while neither send is booked: both are sent, at once. `QuorumCoolDown` says
   from when on it does.
   */
  lemma SameContentSentTwice(cfg: Config, f: Finding, g: Finding)
    requires Passes(cfg, f) && Passes(cfg, g) && 1 <= cfg.quorumSize <= INT64_MAX
    requires f.uniqueKey != g.uniqueKey && CoolDownKey(cfg, f) == CoolDownKey(cfg, g)
    ensures exists run ::
              && Swift(cfg, run)
              && |Exec(cfg, run).sends| == 2
              && Exec(cfg, run).sends[0].coolDownKey == Exec(cfg, run).sends[1].coolDownKey
              && Exec(cfg, run).sends[0].time == Exec(cfg, run).sends[1].time
  {
    hide Exec, Apply, Gather, Next, Swift, CoolDownKey;
    var q := cfg.quorumSize;
    InitIsSwift(cfg);
    QuorumSends(cfg, [], 0, f);
    var run1 := [] + Gather(q, 0, f, Delivered, 7);
    QuorumSends(cfg, run1, q, g);
    assert Swift(cfg, run1 + Gather(q, q, g, Delivered, 7));
  }
}
