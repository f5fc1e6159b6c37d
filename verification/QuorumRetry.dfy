/**
 Calls that run without interference: a failed send is rolled back exactly, so
 it can be retried until it succeeds. The same calls, put together, show what
 the assumptions of the theorems about runs are needed for.
 */
module QuorumRetry {
  import opened GoInts
  import opened Redis
  import opened Wrappers
  import opened QuorumModel

  // ----- one instance on its own -----

  /** What an instance sees of the cluster, and the record of sends. */
  datatype View = View(store: Store, local: Local, sends: seq<Record>)

  function Seen(c: Cluster, i: Instance): View {
    View(c.store, At(c, i), c.sends)
  }

  /** One operation whose command succeeds. */
  function Next(cfg: Config, i: Instance, v: View, d: Delivery): View {
    if v.local.pc.Idle? then v
    else View(
           Issue(cfg, i, v.store, v.local),
           Proceed(cfg, i, v.store, v.local, true, d),
           if v.local.pc.Send? && d.Delivered?
           then v.sends + [Record(v.store.now, i, v.local.finding.uniqueKey, CoolDownKey(cfg, v.local.finding))]
           else v.sends)
  }

  function After(cfg: Config, i: Instance, v: View, d: Delivery, n: nat): View {
    if n == 0 then v else Next(cfg, i, After(cfg, i, v, d, n - 1), d)
  }

  /** A call that receives finding f and issues n operations. */
  function Call(cfg: Config, i: Instance, v: View, f: Finding, d: Delivery, n: nat): View {
    After(cfg, i, v.(local := Begin(cfg, v.local, v.store.now, Parsed(f))), d, n)
  }

  predicate Passes(cfg: Config, f: Finding) {
    && cfg.byQuorum && f.severity in cfg.severitySet && |f.uniqueKey| >= 4
    && (cfg.findingFilter == {} || f.alertId in cfg.findingFilter)
  }

  /** Nobody sends the finding, and no cool-down keeps it from being sent. */
  predicate Unclaimed(cfg: Config, st: Store, f: Finding) {
    && !Exists(st.status, f.uniqueKey, st.now)
    && !Exists(st.coolDown, CoolDownKey(cfg, f), st.now)
  }

  /** The counter as a call compares it with the quorum: one more, unless the instance counted before. */
  function Counted(v: View, k: string): int {
    Number(v.store.count, k, v.store.now) + if k in v.local.cache then 0 else 1
  }

  /** A call finds the quorum collected, by its own increment or by a redelivery. */
  predicate ReachesQuorum(cfg: Config, v: View, f: Finding) {
    var k := f.uniqueKey;
    && Passes(cfg, f) && v.local.pc.Idle?
    && Exists(v.store.count, k, v.store.now) && v.store.count[k].value >= 1
    && cfg.quorumSize <= Counted(v, k) <= INT64_MAX
  }

  predicate ReadyToSend(cfg: Config, v: View, f: Finding) {
    ReachesQuorum(cfg, v, f) && Unclaimed(cfg, v.store, f)
  }

  /** The store once the call has counted. */
  function StoreCounted(v: View, k: string): Store {
    if k in v.local.cache then v.store else v.store.(count := Add(v.store.count, k, v.store.now, 1))
  }

  /** The store with the finding counted and claimed. */
  function Claimed(v: View, k: string): Store {
    StoreCounted(v, k).(status := SetFor(v.store.status, k, SENDING, v.store.now, MINS_12))
  }

  // The operations on the way to a send, one at a time.

  lemma NextCollects(cfg: Config, i: Instance, v: View, d: Delivery)
    ensures var k, l, v' := v.local.finding.uniqueKey, v.local, Next(cfg, i, v, d);
            && (l.pc.Lookup? && k !in l.cache ==> v' == v.(local := l.(pc := Increment)))
            && (l.pc.Increment? && Increments(v.store, k) ==>
                  v' == v.(store := v.store.(count := Add(v.store.count, k, v.store.now, 1)),
                           local := l.(pc := Remember(Number(v.store.count, k, v.store.now) + 1))))
            && (l.pc.Remember? && 2 <= l.pc.n <= INT64_MAX && l.pc.n >= cfg.quorumSize ==>
                  v' == v.(local := l.(pc := ReadStatus, cache := l.cache + {k})))
            && (l.pc.Remember? && 2 <= l.pc.n <= INT64_MAX && l.pc.n < cfg.quorumSize ==>
                  v' == v.(local := Finish(l.(cache := l.cache + {k}), NakWithDelay(RESEND_QUORUM_MSG_AFTER))))
  {
  }

  lemma NextRedelivers(cfg: Config, i: Instance, v: View, d: Delivery)
    ensures var k, l, st, v' := v.local.finding.uniqueKey, v.local, v.store, Next(cfg, i, v, d);
            && (l.pc == Remember(1) ==> v' == v.(local := l.(pc := SetCountTtl, cache := l.cache + {k})))
            && (l.pc.SetCountTtl? ==>
                  v' == v.(store := st.(count := Expire(st.count, k, st.now, MINS_10)), local := Finish(l, Nak)))
            && (l.pc.Lookup? && k in l.cache ==> v' == v.(local := l.(pc := Touch)))
            && (l.pc.Touch? ==> v' == v.(local := l.(pc := ReadCount, cache := l.cache + {k})))
            && (l.pc.ReadCount? && !Exists(st.count, k, st.now) ==> v' == v.(local := l.(pc := ForgetMissing)))
            && (l.pc.ReadCount? && Exists(st.count, k, st.now) && st.count[k].value >= cfg.quorumSize ==>
                  v' == v.(local := l.(pc := ReadStatus)))
            && (l.pc.ReadCount? && Exists(st.count, k, st.now) && 0 <= st.count[k].value < cfg.quorumSize ==>
                  v' == v.(local := Finish(l, NakWithDelay(RESEND_QUORUM_MSG_AFTER))))
            && (l.pc.ForgetMissing? ==> v' == v.(local := Finish(l.(cache := l.cache - {k}), Ack)))
  {
  }

  lemma NextDecides(cfg: Config, i: Instance, v: View, d: Delivery)
    requires Unclaimed(cfg, v.store, v.local.finding)
    ensures var k, v' := v.local.finding.uniqueKey, Next(cfg, i, v, d);
            && (v.local.pc.ReadStatus? ==> v' == v.(local := v.local.(pc := ReadCoolDown)))
            && (v.local.pc.ReadCoolDown? ==> v' == v.(local := v.local.(pc := Claim)))
            && (v.local.pc.Claim? && Claimable(cfg, v.store, k) ==>
                  v' == v.(store := v.store.(status := SetFor(v.store.status, k, SENDING, v.store.now, MINS_12)),
                           local := v.local.(pc := Send)))
  {
  }

  lemma NextRollsBack(cfg: Config, i: Instance, v: View, d: Delivery)
    requires !d.Delivered?
    ensures var k, l, st, v' := v.local.finding.uniqueKey, v.local, v.store, Next(cfg, i, v, d);
            && (l.pc.Send? ==> v' == v.(local := l.(pc := Retract(RetryDelay(d)))))
            && (l.pc.Retract? ==>
                  v' == v.(store := st.(count := Add(st.count, k, st.now, -1)),
                           local := l.(pc := if Number(st.count, k, st.now) >= 2 then ReleaseStatus(l.pc.delay)
                                             else DropCount(l.pc.delay))))
            && (l.pc.DropCount? ==>
                  v' == v.(store := st.(count := Del(st.count, k)), local := l.(pc := ReleaseStatus(l.pc.delay))))
            && (l.pc.ReleaseStatus? ==>
                  v' == v.(store := st.(status := Del(st.status, k)), local := l.(pc := ForgetFailed(l.pc.delay))))
            && (l.pc.ForgetFailed? ==>
                  v' == v.(local := Finish(l.(cache := l.cache - {k}), NakWithDelay(l.pc.delay))))
  {
  }

  lemma NextBooksSend(cfg: Config, i: Instance, v: View)
    ensures var k, l, v' := v.local.finding.uniqueKey, v.local, Next(cfg, i, v, Delivered);
            var cd := CoolDownKey(cfg, l.finding);
            && (l.pc.Send? ==>
                  v' == v.(local := Finish(l, Ack).(pc := MarkSent),
                           sends := v.sends + [Record(v.store.now, i, k, cd)]))
            && (l.pc.MarkSent? ==>
                  v' == v.(store := v.store.(status := SetFor(v.store.status, k, SENT, v.store.now, MINS_10)),
                           local := l.(pc := SetCoolDown)))
            && (l.pc.SetCoolDown? ==>
                  v' == v.(store := v.store.(coolDown := SetFor(v.store.coolDown, cd, "", v.store.now, MINS_30)),
                           local := l.(pc := Idle)))
  {
  }

  /** Three operations to the comparison with the quorum, for a new finding and for a redelivered one. */
  lemma CountsFinding(cfg: Config, i: Instance, v: View, f: Finding, d: Delivery)
    requires ReachesQuorum(cfg, v, f)
    ensures Call(cfg, i, v, f, d, 3) ==
            View(StoreCounted(v, f.uniqueKey),
                 Local(ReadStatus, f, v.store.now, v.local.cache + {f.uniqueKey}, []),
                 v.sends)
  {
    hide Next;
    if f.uniqueKey in v.local.cache {
      NextRedelivers(cfg, i, Call(cfg, i, v, f, d, 0), d);
      NextRedelivers(cfg, i, Call(cfg, i, v, f, d, 1), d);
      NextRedelivers(cfg, i, Call(cfg, i, v, f, d, 2), d);
      assert v.local.cache + {f.uniqueKey} == v.local.cache;
    } else {
      NextCollects(cfg, i, Call(cfg, i, v, f, d, 0), d);
      NextCollects(cfg, i, Call(cfg, i, v, f, d, 1), d);
      NextCollects(cfg, i, Call(cfg, i, v, f, d, 2), d);
    }
  }

  /** Six operations to the send. */
  lemma ReachesSend(cfg: Config, i: Instance, v: View, f: Finding, d: Delivery)
    requires ReadyToSend(cfg, v, f)
    ensures Call(cfg, i, v, f, d, 6) ==
            View(Claimed(v, f.uniqueKey), Local(Send, f, v.store.now, v.local.cache + {f.uniqueKey}, []), v.sends)
  {
    hide Next;
    CountsFinding(cfg, i, v, f, d);
    NextDecides(cfg, i, Call(cfg, i, v, f, d, 3), d);
    NextDecides(cfg, i, Call(cfg, i, v, f, d, 4), d);
    NextDecides(cfg, i, Call(cfg, i, v, f, d, 5), d);
  }

  /** An accepted send: the message is acknowledged, the status is "sent" and the cool-down runs. */
  lemma DeliveredSendIsBooked(cfg: Config, i: Instance, v: View, f: Finding)
    requires ReadyToSend(cfg, v, f)
    ensures var k, st, cd := f.uniqueKey, v.store, CoolDownKey(cfg, f);
            Call(cfg, i, v, f, Delivered, 9) ==
            View(StoreCounted(v, k).(status := SetFor(st.status, k, SENT, st.now, MINS_10),
                                     coolDown := SetFor(st.coolDown, cd, "", st.now, MINS_30)),
                 Local(Idle, f, st.now, v.local.cache + {k}, [Ack]),
                 v.sends + [Record(st.now, i, k, cd)])
  {
    hide Next;
    ReachesSend(cfg, i, v, f, Delivered);
    NextBooksSend(cfg, i, Call(cfg, i, v, f, Delivered, 6));
    NextBooksSend(cfg, i, Call(cfg, i, v, f, Delivered, 7));
    NextBooksSend(cfg, i, Call(cfg, i, v, f, Delivered, 8));
  }

  // ----- rollback -----

  function RetryDelay(d: Delivery): nat
    requires !d.Delivered?
  {
    if d.NotDelivered? then NACK_DELAY_MSG else d.resetAfter + 500
  }

  lemma {:induction false} AfterAdds(cfg: Config, i: Instance, v: View, d: Delivery, m: nat, n: nat)
    ensures After(cfg, i, v, d, m + n) == After(cfg, i, After(cfg, i, v, d, m), d, n)
  {
    hide Next;
    if n > 0 {
      AfterAdds(cfg, i, v, d, m, n - 1);
    }
  }

  /**
   A failed send, however the call got there, while other increments remain: one
   increment, the status and the cache entry are taken back, and the message is.
   */
  lemma SendRollsBack(cfg: Config, i: Instance, v: View, d: Delivery)
    requires !d.Delivered? && v.local.pc.Send?
    requires Number(v.store.count, v.local.finding.uniqueKey, v.store.now) >= 2
    ensures var k, st := v.local.finding.uniqueKey, v.store;
            After(cfg, i, v, d, 4) ==
            View(st.(count := Add(st.count, k, st.now, -1), status := Del(st.status, k)),
                 Finish(v.local.(cache := v.local.cache - {k}), NakWithDelay(RetryDelay(d))),
                 v.sends)
  {
    hide Next;
    NextRollsBack(cfg, i, After(cfg, i, v, d, 0), d);
    NextRollsBack(cfg, i, After(cfg, i, v, d, 1), d);
    NextRollsBack(cfg, i, After(cfg, i, v, d, 2), d);
    NextRollsBack(cfg, i, After(cfg, i, v, d, 3), d);
  }

  /** The last increment: the counter goes with it. */
  lemma LastSendRollsBack(cfg: Config, i: Instance, v: View, d: Delivery)
    requires !d.Delivered? && v.local.pc.Send?
    requires Number(v.store.count, v.local.finding.uniqueKey, v.store.now) <= 1
    ensures var k, st := v.local.finding.uniqueKey, v.store;
            After(cfg, i, v, d, 5) ==
            View(st.(count := Del(st.count, k), status := Del(st.status, k)),
                 Finish(v.local.(cache := v.local.cache - {k}), NakWithDelay(RetryDelay(d))),
                 v.sends)
  {
    hide Next;
    NextRollsBack(cfg, i, After(cfg, i, v, d, 0), d);
    NextRollsBack(cfg, i, After(cfg, i, v, d, 1), d);
    NextRollsBack(cfg, i, After(cfg, i, v, d, 2), d);
    NextRollsBack(cfg, i, After(cfg, i, v, d, 3), d);
    NextRollsBack(cfg, i, After(cfg, i, v, d, 4), d);
    var k, st := v.local.finding.uniqueKey, v.store;
    assert Del(Add(st.count, k, st.now, -1), k) == Del(st.count, k);
  }

  /** The counters after a rollback: as before, or less the increment of an earlier delivery. */
  function RolledBack(v: View, k: string): Table<string, int> {
    if k in v.local.cache then Add(v.store.count, k, v.store.now, -1) else v.store.count
  }

  /**
   A failed send is rolled back exactly. The instance contributes nothing to the
   counter and has forgotten the finding; if it counted in this call, counter and
   lifetime are as before it. The status key is free, and as long as quorumSize - 1
   other increments remain the finding is ready to be sent again.
   */
  lemma FailedSendRollsBack(cfg: Config, i: Instance, v: View, f: Finding, d: Delivery)
    requires ReadyToSend(cfg, v, f) && Counted(v, f.uniqueKey) >= 2 && !d.Delivered?
    ensures Call(cfg, i, v, f, d, 10) ==
            View(v.store.(count := RolledBack(v, f.uniqueKey), status := Del(v.store.status, f.uniqueKey)),
                 Local(Idle, f, v.store.now, v.local.cache - {f.uniqueKey}, [NakWithDelay(RetryDelay(d))]),
                 v.sends)
    ensures ReadyToSend(cfg, Call(cfg, i, v, f, d, 10), f)
  {
    hide Next;
    var k, st := f.uniqueKey, v.store;
    var u := Call(cfg, i, v, f, d, 6);
    ReachesSend(cfg, i, v, f, d);
    SendRollsBack(cfg, i, u, d);
    AfterAdds(cfg, i, v.(local := Begin(cfg, v.local, st.now, Parsed(f))), d, 6, 4);
    hide After;
    assert Add(Add(st.count, k, st.now, 1), k, st.now, -1) == st.count;
    assert Del(SetFor(st.status, k, SENDING, st.now, MINS_12), k) == Del(st.status, k);
    assert v.local.cache + {k} - {k} == v.local.cache - {k};
  }

  /** The only contribution to a quorum of one: after the rollback the finding is as if never seen. */
  lemma LastFailedSendRollsBack(cfg: Config, i: Instance, v: View, f: Finding, d: Delivery)
    requires ReadyToSend(cfg, v, f) && Counted(v, f.uniqueKey) == 1 && !d.Delivered?
    ensures Call(cfg, i, v, f, d, 11) ==
            View(v.store.(count := Del(v.store.count, f.uniqueKey), status := Del(v.store.status, f.uniqueKey)),
                 Local(Idle, f, v.store.now, v.local.cache - {f.uniqueKey}, [NakWithDelay(RetryDelay(d))]),
                 v.sends)
  {
    hide Next;
    var k, st := f.uniqueKey, v.store;
    ReachesSend(cfg, i, v, f, d);
    LastSendRollsBack(cfg, i, Call(cfg, i, v, f, d, 6), d);
    AfterAdds(cfg, i, v.(local := Begin(cfg, v.local, st.now, Parsed(f))), d, 6, 5);
    hide After;
    assert Del(SetFor(st.status, k, SENDING, st.now, MINS_12), k) == Del(st.status, k);
    assert v.local.cache + {k} - {k} == v.local.cache - {k};
  }

  /** The first instance to count a finding gives the counter ten minutes and puts the message back. */
  lemma FirstCount(cfg: Config, i: Instance, v: View, f: Finding, d: Delivery)
    requires Passes(cfg, f) && f.uniqueKey !in v.local.cache && v.local.pc.Idle?
    requires !Exists(v.store.count, f.uniqueKey, v.store.now)
    ensures Call(cfg, i, v, f, d, 4) ==
            View(v.store.(count := v.store.count[f.uniqueKey := Entry(1, Some(v.store.now + MINS_10))]),
                 Local(Idle, f, v.store.now, v.local.cache + {f.uniqueKey}, [Nak]),
                 v.sends)
  {
    hide Next;
    NextCollects(cfg, i, Call(cfg, i, v, f, d, 0), d);
    NextCollects(cfg, i, Call(cfg, i, v, f, d, 1), d);
    NextRedelivers(cfg, i, Call(cfg, i, v, f, d, 2), d);
    NextRedelivers(cfg, i, Call(cfg, i, v, f, d, 3), d);
  }

  // ----- retries -----

  function Wait(v: View, ms: nat): View {
    v.(store := v.store.(now := v.store.now + ms))
  }

  /** A delivery whose send fails, and the time until the next delivery. */
  datatype Attempt = Attempt(outcome: Delivery, wait: nat)

  function Waits(attempts: seq<Attempt>): nat {
    if attempts == [] then 0 else Waits(attempts[..|attempts| - 1]) + attempts[|attempts| - 1].wait
  }

  /** Calls that each fail to send, one after the other. */
  function FailedCalls(cfg: Config, i: Instance, v: View, f: Finding, attempts: seq<Attempt>): View {
    if attempts == [] then v
    else
      var last := attempts[|attempts| - 1];
      Wait(Call(cfg, i, FailedCalls(cfg, i, v, f, attempts[..|attempts| - 1]), f, last.outcome, 10), last.wait)
  }

  /** The counter of k does not expire within this time. */
  predicate LivesFor(v: View, k: string, ms: nat) {
    k in v.store.count && (v.store.count[k].deadline.Some? ==> v.store.now + ms < v.store.count[k].deadline.value)
  }

  /** Time alone brings back neither a status nor a cool-down. */
  lemma WaitKeepsReady(cfg: Config, v: View, f: Finding, ms: nat)
    requires ReadyToSend(cfg, v, f) && LivesFor(v, f.uniqueKey, ms)
    ensures ReadyToSend(cfg, Wait(v, ms), f) && Counted(Wait(v, ms), f.uniqueKey) == Counted(v, f.uniqueKey)
  {
  }

  /**
   However many sends fail, however they fail, and however long the redeliveries take:
   the next delivery before the counter expires reaches the send again.
   */
  lemma {:induction false} RetryUntilSent(cfg: Config, i: Instance, v: View, f: Finding, attempts: seq<Attempt>)
    requires ReadyToSend(cfg, v, f) && Counted(v, f.uniqueKey) >= 2
    requires forall a | a in attempts :: !a.outcome.Delivered?
    requires LivesFor(v, f.uniqueKey, Waits(attempts))
    ensures var v', k := FailedCalls(cfg, i, v, f, attempts), f.uniqueKey;
            && ReadyToSend(cfg, v', f) && Counted(v', k) == Counted(v, k)
            && v'.store.now == v.store.now + Waits(attempts)
            && k in v'.store.count && v'.store.count[k].deadline == v.store.count[k].deadline
            && v'.store.coolDown == v.store.coolDown && v'.sends == v.sends
            && Call(cfg, i, v', f, Delivered, 9).sends == v.sends + [Record(v'.store.now, i, k, CoolDownKey(cfg, f))]
  {
    hide Call, CoolDownKey;
    if attempts != [] {
      var before, last := attempts[..|attempts| - 1], attempts[|attempts| - 1];
      var u := FailedCalls(cfg, i, v, f, before);
      RetryUntilSent(cfg, i, v, f, before);
      FailedSendRollsBack(cfg, i, u, f, last.outcome);
      WaitKeepsReady(cfg, Call(cfg, i, u, f, last.outcome, 10), f, last.wait);
    }
    DeliveredSendIsBooked(cfg, i, FailedCalls(cfg, i, v, f, attempts), f);
  }

  /** One instance that makes up the quorum alone: a failed send, a wait, a new count, and a wait. */
  datatype LoneAttempt = LoneAttempt(outcome: Delivery, toCount: nat, toSend: nat)

  function FailedAlone(cfg: Config, i: Instance, v: View, f: Finding, attempts: seq<LoneAttempt>): View {
    if attempts == [] then v
    else
      var last := attempts[|attempts| - 1];
      var failed := Call(cfg, i, FailedAlone(cfg, i, v, f, attempts[..|attempts| - 1]), f, last.outcome, 11);
      Wait(Call(cfg, i, Wait(failed, last.toCount), f, NotDelivered, 4), last.toSend)
  }

  /**
   The retry of an only contribution takes two deliveries, one to count and one to
   send; the second has to come within the counter's ten minutes.
   */
  lemma {:induction false} RetryAloneUntilSent(cfg: Config, i: Instance, v: View, f: Finding,
                                               attempts: seq<LoneAttempt>)
    requires ReadyToSend(cfg, v, f) && Counted(v, f.uniqueKey) == 1
    requires forall a | a in attempts :: !a.outcome.Delivered? && a.toSend < MINS_10
    ensures var v', k := FailedAlone(cfg, i, v, f, attempts), f.uniqueKey;
            && ReadyToSend(cfg, v', f) && Counted(v', k) == 1 && v'.sends == v.sends
            && Call(cfg, i, v', f, Delivered, 9).sends == v.sends + [Record(v'.store.now, i, k, CoolDownKey(cfg, f))]
  {
    hide Call, CoolDownKey;
    if attempts != [] {
      var before, last := attempts[..|attempts| - 1], attempts[|attempts| - 1];
      var u := FailedAlone(cfg, i, v, f, before);
      RetryAloneUntilSent(cfg, i, v, f, before);
      LastFailedSendRollsBack(cfg, i, u, f, last.outcome);
      FirstCount(cfg, i, Wait(Call(cfg, i, u, f, last.outcome, 11), last.toCount), f, NotDelivered);
    }
    DeliveredSendIsBooked(cfg, i, FailedAlone(cfg, i, v, f, attempts), f);
  }

  // ----- calls as parts of a run -----

  /** n operations of instance i whose commands succeed. */
  function Burst(i: Instance, d: Delivery, n: nat): seq<Label> {
    seq(n, _ => Step(i, Done, d))
  }

  lemma NextIsApply(cfg: Config, c: Cluster, i: Instance, d: Delivery)
    ensures var c' := Apply(cfg, c, Step(i, Done, d));
            && Seen(c', i) == Next(cfg, i, Seen(c, i), d)
            && (forall j | j != i :: At(c', j) == At(c, j))
            && (At(c', i).settled != At(c, i).settled + [Ack] ==> c'.acks == c.acks)
            && (!Debugging(At(c, i).pc) && !At(c, i).pc.Idle? && At(c', i).settled == At(c, i).settled + [Ack] ==>
                  c'.acks == c.acks + [RecordOf(cfg, c, i)])
  {
    hide Proceed, Issue, CreditAfter, LeaksAfter, LeaksAfterDrop, Begin;
  }

  /** Playing a burst at the end of a run is running the instance on its own. */
  lemma {:induction false} BurstIsAfter(cfg: Config, run: seq<Label>, i: Instance, d: Delivery, n: nat)
    ensures var c, c' := Exec(cfg, run), Exec(cfg, run + Burst(i, d, n));
            && Seen(c', i) == After(cfg, i, Seen(c, i), d, n)
            && (forall j | j != i :: At(c', j) == At(c, j))
  {
    hide Apply, Next;
    if n == 0 {
      assert run + Burst(i, d, 0) == run;
    } else {
      BurstIsAfter(cfg, run, i, d, n - 1);
      assert (run + Burst(i, d, n))[..|run| + n - 1] == run + Burst(i, d, n - 1);
      NextIsApply(cfg, Exec(cfg, run + Burst(i, d, n - 1)), i, d);
    }
  }

  /** A delivery to an idle instance followed by n of its operations. */
  function Calls(i: Instance, f: Finding, d: Delivery, n: nat): seq<Label> {
    [Receive(i, Parsed(f))] + Burst(i, d, n)
  }

  lemma CallIsRun(cfg: Config, run: seq<Label>, i: Instance, f: Finding, d: Delivery, n: nat)
    requires At(Exec(cfg, run), i).pc.Idle? && |f.uniqueKey| >= 4
    ensures var c, c' := Exec(cfg, run), Exec(cfg, run + Calls(i, f, d, n));
            && Seen(c', i) == Call(cfg, i, Seen(c, i), f, d, n)
            && (forall j | j != i :: At(c', j) == At(c, j))
  {
    var e := Receive(i, Parsed(f));
    assert (run + [e])[..|run|] == run;
    assert run + Calls(i, f, d, n) == (run + [e]) + Burst(i, d, n);
    BurstIsAfter(cfg, run + [e], i, d, n);
    hide Next, After, Begin;
  }

  lemma OneOperation(cfg: Config, run: seq<Label>, i: Instance)
    ensures var c, c' := Exec(cfg, run), Exec(cfg, run + [Step(i, Done, NotDelivered)]);
            && Seen(c', i) == Next(cfg, i, Seen(c, i), NotDelivered)
            && (forall j | j != i :: At(c', j) == At(c, j))
  {
    assert (run + [Step(i, Done, NotDelivered)])[..|run|] == run;
    NextIsApply(cfg, Exec(cfg, run), i, NotDelivered);
    hide Apply, Next;
  }

  /** The retries as labels. */
  function Retries(i: Instance, f: Finding, attempts: seq<Attempt>): seq<Label> {
    if attempts == [] then []
    else
      var last := attempts[|attempts| - 1];
      Retries(i, f, attempts[..|attempts| - 1]) + Calls(i, f, last.outcome, 10) + [Tick(last.wait)]
  }

  /** The retries of `RetryUntilSent` are a part of a run. */
  lemma {:induction false} RetriesAreRun(cfg: Config, run: seq<Label>, i: Instance, f: Finding, attempts: seq<Attempt>)
    requires var v := Seen(Exec(cfg, run), i);
             && ReadyToSend(cfg, v, f) && Counted(v, f.uniqueKey) >= 2
             && LivesFor(v, f.uniqueKey, Waits(attempts))
    requires forall a | a in attempts :: !a.outcome.Delivered?
    ensures var c, c' := Exec(cfg, run), Exec(cfg, run + Retries(i, f, attempts));
            && Seen(c', i) == FailedCalls(cfg, i, Seen(c, i), f, attempts)
            && (forall j | j != i :: At(c', j) == At(c, j))
  {
    hide Exec, Call, Next, CoolDownKey;
    if attempts == [] {
      assert run + Retries(i, f, attempts) == run;
    } else {
      var before, last := attempts[..|attempts| - 1], attempts[|attempts| - 1];
      var prefix := run + Retries(i, f, before);
      RetriesAreRun(cfg, run, i, f, before);
      RetryUntilSent(cfg, i, Seen(Exec(cfg, run), i), f, before);
      CallIsRun(cfg, prefix, i, f, last.outcome, 10);
      TickIsWait(cfg, prefix + Calls(i, f, last.outcome, 10), last.wait);
      assert run + Retries(i, f, attempts) == prefix + Calls(i, f, last.outcome, 10) + [Tick(last.wait)];
    }
  }

  function LoneRetries(i: Instance, f: Finding, attempts: seq<LoneAttempt>): seq<Label> {
    if attempts == [] then []
    else
      var last := attempts[|attempts| - 1];
      LoneRetries(i, f, attempts[..|attempts| - 1])
      + Calls(i, f, last.outcome, 11) + [Tick(last.toCount)] + Calls(i, f, NotDelivered, 4) + [Tick(last.toSend)]
  }

  /** The retries of `RetryAloneUntilSent` are a part of a run. */
  lemma {:induction false} LoneRetriesAreRun(cfg: Config, run: seq<Label>, i: Instance, f: Finding,
                                             attempts: seq<LoneAttempt>)
    requires var v := Seen(Exec(cfg, run), i); ReadyToSend(cfg, v, f) && Counted(v, f.uniqueKey) == 1
    requires forall a | a in attempts :: !a.outcome.Delivered? && a.toSend < MINS_10
    ensures var c, c' := Exec(cfg, run), Exec(cfg, run + LoneRetries(i, f, attempts));
            && Seen(c', i) == FailedAlone(cfg, i, Seen(c, i), f, attempts)
            && (forall j | j != i :: At(c', j) == At(c, j))
  {
    hide Exec, Call, Calls, Next, CoolDownKey;
    if attempts == [] {
      assert run + LoneRetries(i, f, attempts) == run;
    } else {
      var before, last := attempts[..|attempts| - 1], attempts[|attempts| - 1];
      var run1 := run + LoneRetries(i, f, before);
      var run2 := run1 + Calls(i, f, last.outcome, 11);
      var run3 := run2 + [Tick(last.toCount)];
      var run4 := run3 + Calls(i, f, NotDelivered, 4);
      LoneRetriesAreRun(cfg, run, i, f, before);
      RetryAloneUntilSent(cfg, i, Seen(Exec(cfg, run), i), f, before);
      CallIsRun(cfg, run1, i, f, last.outcome, 11);
      LastFailedSendRollsBack(cfg, i, Seen(Exec(cfg, run1), i), f, last.outcome);
      TickIsWait(cfg, run2, last.toCount);
      CallIsRun(cfg, run3, i, f, NotDelivered, 4);
      TickIsWait(cfg, run4, last.toSend);
      assert run + LoneRetries(i, f, attempts) == run4 + [Tick(last.toSend)];
    }
  }

  lemma TickIsWait(cfg: Config, run: seq<Label>, ms: nat)
    ensures var c, c' := Exec(cfg, run), Exec(cfg, run + [Tick(ms)]);
            && c' == c.(store := c.store.(now := c.store.now + ms))
            && (forall j :: At(c', j) == At(c, j)) && (forall j :: Seen(c', j) == Wait(Seen(c, j), ms))
  {
    assert (run + [Tick(ms)])[..|run|] == run;
  }
}
