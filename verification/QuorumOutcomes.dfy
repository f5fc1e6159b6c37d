/** What an undisturbed call does with a finding, read off what it finds in Redis. */
module QuorumOutcomes {
  import opened GoInts
  import opened Redis
  import opened QuorumModel
  import opened QuorumRetry
  import opened QuorumMinute

  lemma NextDeclines(cfg: Config, i: Instance, v: View, d: Delivery)
    ensures var k, l, st, v' := v.local.finding.uniqueKey, v.local, v.store, Next(cfg, i, v, d);
            && (l.pc.ReadStatus? && Exists(st.status, k, st.now) && st.status[k].value == SENDING ==>
                  v' == v.(local := Finish(l, NakWithDelay(1_000))))
            && (l.pc.ReadStatus? && !Exists(st.status, k, st.now) ==> v' == v.(local := l.(pc := ReadCoolDown)))
            && (l.pc.ReadCoolDown? && Exists(st.coolDown, CoolDownKey(cfg, l.finding), st.now) ==>
                  v' == v.(local := Finish(l, Ack)))
  {
  }

  /** Below the quorum the finding is counted once per instance and put back. */
  lemma BelowQuorumIsPutBack(cfg: Config, i: Instance, v: View, f: Finding, d: Delivery)
    requires Passes(cfg, f) && v.local.pc.Idle?
    requires Exists(v.store.count, f.uniqueKey, v.store.now) && v.store.count[f.uniqueKey].value >= 1
    requires Counted(v, f.uniqueKey) < cfg.quorumSize && Counted(v, f.uniqueKey) <= INT64_MAX
    ensures Call(cfg, i, v, f, d, 3) ==
            View(StoreCounted(v, f.uniqueKey),
                 Local(Idle, f, v.store.now, v.local.cache + {f.uniqueKey}, [NakWithDelay(RESEND_QUORUM_MSG_AFTER)]),
                 v.sends)
  {
    hide Next;
    if f.uniqueKey in v.local.cache {
      NextRedelivers(cfg, i, Call(cfg, i, v, f, d, 0), d);
      NextRedelivers(cfg, i, Call(cfg, i, v, f, d, 1), d);
      NextRedelivers(cfg, i, Call(cfg, i, v, f, d, 2), d);
      assert v.local.cache + {f.uniqueKey} == v.local.cache;
    } else {
      NextCollects(cfg, i, Call(cfg, i, v, f, d, 0), d);
      NextCollects(cfg, i, Call(cfg, i, v, f, d, 1), d);
      NextCollects(cfg, i, Call(cfg, i, v, f, d, 2), d);
    }
  }

  lemma SendingIsPutBack(cfg: Config, i: Instance, v: View, f: Finding, d: Delivery)
    requires ReachesQuorum(cfg, v, f)
    requires Exists(v.store.status, f.uniqueKey, v.store.now) && v.store.status[f.uniqueKey].value == SENDING
    ensures Call(cfg, i, v, f, d, 4) ==
            View(StoreCounted(v, f.uniqueKey),
                 Local(Idle, f, v.store.now, v.local.cache + {f.uniqueKey}, [NakWithDelay(1_000)]),
                 v.sends)
  {
    hide Next;
    CountsFinding(cfg, i, v, f, d);
    NextDeclines(cfg, i, Call(cfg, i, v, f, d, 3), d);
  }

  lemma CooledIsAcknowledged(cfg: Config, i: Instance, v: View, f: Finding, d: Delivery)
    requires ReachesQuorum(cfg, v, f)
    requires !Exists(v.store.status, f.uniqueKey, v.store.now)
    requires Exists(v.store.coolDown, CoolDownKey(cfg, f), v.store.now)
    ensures Call(cfg, i, v, f, d, 5) ==
            View(StoreCounted(v, f.uniqueKey),
                 Local(Idle, f, v.store.now, v.local.cache + {f.uniqueKey}, [Ack]),
                 v.sends)
  {
    hide Next;
    CountsFinding(cfg, i, v, f, d);
    NextDeclines(cfg, i, Call(cfg, i, v, f, d, 3), d);
    NextDeclines(cfg, i, Call(cfg, i, v, f, d, 4), d);
  }

  /** A finding sent before is acknowledged and forgotten, and counter and status, if alive, last a minute more. */
  lemma SentIsAcknowledged(cfg: Config, i: Instance, v: View, f: Finding, d: Delivery)
    requires ReachesQuorum(cfg, v, f)
    requires Exists(v.store.status, f.uniqueKey, v.store.now) && v.store.status[f.uniqueKey].value == SENT
    ensures var k, st := f.uniqueKey, v.store;
            Call(cfg, i, v, f, d, 7) ==
            View(st.(count := Expire(StoreCounted(v, k).count, k, st.now, MIN_1),
                     status := Expire(st.status, k, st.now, MIN_1)),
                 Local(Idle, f, st.now, v.local.cache - {k}, [Ack]),
                 v.sends)
  {
    hide Next;
    FindsSent(cfg, i, v, f, d);
    NextShortens(cfg, i, Call(cfg, i, v, f, d, 6), d);
  }

  lemma {:induction false} StaysIdle(cfg: Config, i: Instance, v: View, d: Delivery, m: nat, n: nat)
    requires m <= n && After(cfg, i, v, d, m).local.pc.Idle?
    ensures After(cfg, i, v, d, n) == After(cfg, i, v, d, m)
  {
    if m < n {
      StaysIdle(cfg, i, v, d, m, n - 1);
    }
  }

  /**
   An undisturbed call that finds the quorum collected is over after eleven operations.
   It sends the finding if and only if nobody claimed or sent it and its content is not
   cooling down, and acknowledges it if and only if it was sent, by this call or before.
   */
  lemma CallSettles(cfg: Config, i: Instance, v: View, f: Finding, d: Delivery)
    requires ReachesQuorum(cfg, v, f)
    requires Exists(v.store.status, f.uniqueKey, v.store.now) ==>
               v.store.status[f.uniqueKey].value in {SENDING, SENT}
    ensures var w, st, k, cd := Call(cfg, i, v, f, d, 11), v.store, f.uniqueKey, CoolDownKey(cfg, f);
            && w.local.pc.Idle?
            && w.sends == (if Unclaimed(cfg, st, f) && d.Delivered?
                           then v.sends + [Record(st.now, i, k, cd)] else v.sends)
            && (w.local.settled == [Ack] <==>
                  || (Exists(st.status, k, st.now) && st.status[k].value == SENT)
                  || (!Exists(st.status, k, st.now) && (Exists(st.coolDown, cd, st.now) || d.Delivered?)))
            && (w.local.settled != [Ack] ==>
                  w.local.settled ==
                  [NakWithDelay(if Exists(st.status, k, st.now) then 1_000 else RetryDelay(d))])
  {
    hide After, CoolDownKey, Begin;
    var start := v.(local := Begin(cfg, v.local, v.store.now, Parsed(f)));
    if Exists(v.store.status, f.uniqueKey, v.store.now) {
      if v.store.status[f.uniqueKey].value == SENT {
        SentIsAcknowledged(cfg, i, v, f, d);
        StaysIdle(cfg, i, start, d, 7, 11);
      } else {
        SendingIsPutBack(cfg, i, v, f, d);
        StaysIdle(cfg, i, start, d, 4, 11);
      }
    } else if Exists(v.store.coolDown, CoolDownKey(cfg, f), v.store.now) {
      CooledIsAcknowledged(cfg, i, v, f, d);
      StaysIdle(cfg, i, start, d, 5, 11);
    } else if d.Delivered? {
      DeliveredSendIsBooked(cfg, i, v, f);
      StaysIdle(cfg, i, start, d, 9, 11);
    } else if Counted(v, f.uniqueKey) >= 2 {
      FailedSendRollsBack(cfg, i, v, f, d);
      StaysIdle(cfg, i, start, d, 10, 11);
    } else {
      LastFailedSendRollsBack(cfg, i, v, f, d);
    }
  }

  /**
   An undisturbed call of a consumer without quorum is over after three operations. It
   comes to its send if and only if the instance has no key of the finding, and keeps the
   key, for fifteen minutes, if and only if the send is accepted.
   */
  lemma DebugCallSettles(cfg: Config, i: Instance, v: View, f: Finding, d: Delivery)
    requires !cfg.byQuorum && v.local.pc.Idle? && f.severity in cfg.severitySet
    requires cfg.findingFilter == {} || f.alertId in cfg.findingFilter
    ensures var w, st, key := Call(cfg, i, v, f, d, 3), v.store, (i, f.uniqueKey);
            && (Call(cfg, i, v, f, d, 1).local.pc.SendDebug? <==> !Exists(st.dedup, key, st.now))
            && w == View(
                 if Exists(st.dedup, key, st.now) then st
                 else if d.Delivered? then st.(dedup := SetFor(st.dedup, key, "1", st.now, MINS_15))
                 else st.(dedup := Del(st.dedup, key)),
                 Local(Idle, f, st.now, v.local.cache,
                       [if Exists(st.dedup, key, st.now) || d.Delivered? then Ack else NakWithDelay(RetryDelay(d))]),
                 v.sends)
  {
    hide Next, CoolDownKey;
    NextDebugs(cfg, i, Call(cfg, i, v, f, d, 0), d);
    NextDebugs(cfg, i, Call(cfg, i, v, f, d, 1), d);
    NextDebugs(cfg, i, Call(cfg, i, v, f, d, 2), d);
    var st, key := v.store, (i, f.uniqueKey);
    assert Del(SetFor(st.dedup, key, "1", st.now, MINS_15), key) == Del(st.dedup, key);
  }

  lemma NextDebugs(cfg: Config, i: Instance, v: View, d: Delivery)
    ensures var l, st, key, v' := v.local, v.store, (i, v.local.finding.uniqueKey), Next(cfg, i, v, d);
            && (l.pc.Idle? ==> v' == v)
            && (l.pc.SetDedup? && Exists(st.dedup, key, st.now) ==> v' == v.(local := Finish(l, Ack)))
            && (l.pc.SetDedup? && !Exists(st.dedup, key, st.now) ==>
                  v' == v.(store := st.(dedup := SetFor(st.dedup, key, "1", st.now, MINS_15)),
                           local := l.(pc := SendDebug)))
            && (l.pc.SendDebug? && d.Delivered? ==> v' == v.(local := Finish(l, Ack)))
            && (l.pc.SendDebug? && !d.Delivered? ==> v' == v.(local := l.(pc := DropDedup(RetryDelay(d)))))
            && (l.pc.DropDedup? ==>
                  v' == v.(store := st.(dedup := Del(st.dedup, key)),
                           local := Finish(l, NakWithDelay(l.pc.delay))))
  {
    hide CoolDownKey;
  }
}
