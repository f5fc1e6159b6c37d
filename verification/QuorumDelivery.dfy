/** Every call settles its message exactly once, and an acknowledged finding was sent. */
module QuorumDelivery {
  import opened GoInts
  import opened Redis
  import opened QuorumModel
  import opened QuorumSteps
  import opened QuorumMutex

  // ----- settled exactly once -----

  /** The points of the handler after the message was acknowledged. */
  predicate AfterAck(pc: Pc) {
    pc.ForgetSent? || pc.ShortenCount? || pc.ShortenStatus? || pc.MarkSent? || pc.SetCoolDown?
  }

  /** What a call has settled so far; an idle instance has settled its last call, if it had one. */
  predicate SettledSoFar(l: Local) {
    if l.pc.Idle? then |l.settled| <= 1
    else if AfterAck(l.pc) then l.settled == [Ack]
    else l.settled == []
  }

  ghost predicate Settling(c: Cluster) {
    forall i :: SettledSoFar(At(c, i))
  }

  /** The status branches are exhaustive because a stored status is only ever "sending" or "sent". */
  lemma SettleFlow(cfg: Config, i: Instance, st: Store, l: Local, ok: bool, d: Delivery)
    requires !l.pc.Idle? && SettledSoFar(l)
    requires forall k | k in st.status :: st.status[k].value in {SENDING, SENT}
    ensures var l' := Proceed(cfg, i, st, l, ok, d);
            SettledSoFar(l') && (l'.pc.Idle? ==> |l'.settled| == 1)
  {
    hide CoolDownKey, AsUint64, Claimable, Increments, Number;
  }

  lemma {:induction false} RunsSettle(cfg: Config, run: seq<Label>)
    ensures Settling(Exec(cfg, run))
  {
    if run != [] {
      var c, e := Exec(cfg, run[..|run| - 1]), run[|run| - 1];
      RunsSettle(cfg, run[..|run| - 1]);
      StoredStatuses(cfg, run[..|run| - 1]);
      forall i ensures SettledSoFar(At(Apply(cfg, c, e), i)) {
        assert SettledSoFar(At(c, i));
        if Runs(c, e) {
          StepLocals(cfg, c, e);
          SettleFlow(cfg, e.who, c.store, At(c, e.who), e.reply.Done?, e.delivery);
        } else {
          OtherLocals(cfg, c, e, i);
        }
      }
      hide Apply;
    }
  }

  /**
   A call that returns, in any run and with any combination of command results,
   has issued exactly one of Ack, Nak, NakWithDelay and Term; so has a message
   that is broken or filtered out.
   */
  lemma SettledExactlyOnce(cfg: Config, run: seq<Label>, e: Label)
    ensures var c, c' := Exec(cfg, run), Apply(cfg, Exec(cfg, run), e);
            forall i | (!At(c, i).pc.Idle? || (e.Receive? && e.to == i && Loggable(cfg, e.msg)))
                       && At(c', i).pc.Idle? && !e.Crash? ::
              |At(c', i).settled| == 1
  {
    hide Exec;
    RunsSettle(cfg, run);
    StoredStatuses(cfg, run);
    var c := Exec(cfg, run);
    forall i | (!At(c, i).pc.Idle? || (e.Receive? && e.to == i && Loggable(cfg, e.msg)))
               && At(Apply(cfg, c, e), i).pc.Idle? && !e.Crash?
      ensures |At(Apply(cfg, c, e), i).settled| == 1
    {
      assert SettledSoFar(At(c, i));
      SettlesOnce(cfg, c, e, i);
    }
  }

  lemma SettlesOnce(cfg: Config, c: Cluster, e: Label, i: Instance)
    requires SettledSoFar(At(c, i)) && (forall k | k in c.store.status :: c.store.status[k].value in {SENDING, SENT})
    requires !At(c, i).pc.Idle? || (e.Receive? && e.to == i && Loggable(cfg, e.msg))
    requires At(Apply(cfg, c, e), i).pc.Idle? && !e.Crash?
    ensures |At(Apply(cfg, c, e), i).settled| == 1
  {
    if Runs(c, e) {
      StepLocals(cfg, c, e);
      SettleFlow(cfg, e.who, c.store, At(c, e.who), e.reply.Done?, e.delivery);
      hide Apply, Proceed;
    } else {
      OtherLocals(cfg, c, e, i);
    }
  }

  // ----- acknowledged means sent -----

  ghost predicate SentKey(c: Cluster, k: string) {
    exists r :: r in c.sends && r.key == k
  }

  ghost predicate SentCoolDown(c: Cluster, cd: string) {
    exists r :: r in c.sends && r.coolDownKey == cd
  }

  /** "sent", the cool-down and the acknowledgements all go back to an accepted send. */
  ghost predicate SendsRecorded(cfg: Config, c: Cluster) {
    && (forall k | k in c.store.status && c.store.status[k].value == SENT :: SentKey(c, k))
    && (forall cd | cd in c.store.coolDown :: SentCoolDown(c, cd))
    && (forall i | At(c, i).pc.MarkSent? || At(c, i).pc.SetCoolDown? ::
          SentKey(c, At(c, i).finding.uniqueKey) && SentCoolDown(c, CoolDownKey(cfg, At(c, i).finding)))
  }

  ghost predicate Justified(c: Cluster, a: Record) {
    SentKey(c, a.key) || SentCoolDown(c, a.coolDownKey)
  }

  /** Where a quorum finding is acknowledged. */
  lemma AckFlow(cfg: Config, i: Instance, st: Store, l: Local, ok: bool, d: Delivery)
    requires !l.pc.Idle?
    ensures var l' := Proceed(cfg, i, st, l, ok, d);
            var k := l.finding.uniqueKey;
            && l'.finding == l.finding
            && (l'.pc.MarkSent? ==> l.pc.Send? && d.Delivered?)
            && (l'.pc.SetCoolDown? ==> l.pc.MarkSent?)
            && (!Debugging(l.pc) && l'.settled == l.settled + [Ack] ==>
                  || l.pc.ForgetMissing?
                  || (l.pc.ReadStatus? && Exists(st.status, k, st.now) && st.status[k].value == SENT)
                  || (l.pc.ReadCoolDown? && Exists(st.coolDown, CoolDownKey(cfg, l.finding), st.now))
                  || (l.pc.Send? && d.Delivered?))
  {
    assert forall s {:trigger Finish(l, s)} :: Finish(l, s).settled[|l.settled|] == s;
    assert (l.settled + [Ack])[|l.settled|] == Ack;
  }

  lemma ApplyAcks(cfg: Config, c: Cluster, e: Label)
    ensures Apply(cfg, c, e).acks == c.acks
            || (Runs(c, e) && !Debugging(At(c, e.who).pc)
                && At(Apply(cfg, c, e), e.who).settled == At(c, e.who).settled + [Ack]
                && Apply(cfg, c, e).acks == c.acks + [RecordOf(cfg, c, e.who)])
  {
    hide Proceed, Issue, CreditAfter, LeaksAfter, LeaksAfterDrop, Begin;
  }

  lemma SendsAreKept(cfg: Config, c: Cluster, e: Label)
    ensures forall k | SentKey(c, k) :: SentKey(Apply(cfg, c, e), k)
    ensures forall cd | SentCoolDown(c, cd) :: SentCoolDown(Apply(cfg, c, e), cd)
    ensures Runs(c, e) && At(c, e.who).pc.Send? && e.delivery.Delivered? ==>
              && SentKey(Apply(cfg, c, e), At(c, e.who).finding.uniqueKey)
              && SentCoolDown(Apply(cfg, c, e), CoolDownKey(cfg, At(c, e.who).finding))
  {
    ApplySends(cfg, c, e);
    hide Apply;
    var c' := Apply(cfg, c, e);
    assert forall r | r in c.sends :: r in c'.sends;
    if Runs(c, e) && At(c, e.who).pc.Send? && e.delivery.Delivered? {
      assert RecordOf(cfg, c, e.who) in c'.sends;
    }
  }

  lemma ApplyKeepsRecords(cfg: Config, c: Cluster, e: Label)
    requires SendsRecorded(cfg, c)
    ensures SendsRecorded(cfg, Apply(cfg, c, e))
  {
    hide Apply, Proceed, Issue, SentKey, SentCoolDown;
    var c' := Apply(cfg, c, e);
    SendsAreKept(cfg, c, e);
    ApplyStatuses(cfg, c, e);
    ApplyCoolDowns(cfg, c, e);
    if Runs(c, e) {
      StepLocals(cfg, c, e);
      AckFlow(cfg, e.who, c.store, At(c, e.who), e.reply.Done?, e.delivery);
    }
    forall i | At(c', i).pc.MarkSent? || At(c', i).pc.SetCoolDown?
      ensures SentKey(c', At(c', i).finding.uniqueKey) && SentCoolDown(c', CoolDownKey(cfg, At(c', i).finding))
    {
      if !Runs(c, e) {
        OtherLocals(cfg, c, e, i);
      }
    }
  }

  lemma {:induction false} RunsRecordSends(cfg: Config, run: seq<Label>)
    ensures SendsRecorded(cfg, Exec(cfg, run))
  {
    hide Apply;
    if run != [] {
      RunsRecordSends(cfg, run[..|run| - 1]);
      ApplyKeepsRecords(cfg, Exec(cfg, run[..|run| - 1]), run[|run| - 1]);
    }
  }

  // ----- what an acknowledgement rests on, in every run -----

  /** Label m acknowledges a finding because its counter is gone. */
  predicate ForgetsAt(cfg: Config, run: seq<Label>, m: nat, a: Record)
    requires m < |run|
  {
    var c := Exec(cfg, run[..m]);
    Runs(c, run[m]) && At(c, run[m].who).pc.ForgetMissing? && a == RecordOf(cfg, c, run[m].who)
  }

  ghost predicate Forgotten(cfg: Config, run: seq<Label>, a: Record) {
    exists m :: 0 <= m < |run| && ForgetsAt(cfg, run, m, a)
  }

  /** One label acknowledges a finding that was sent, or forgets one. */
  lemma StepJustifies(cfg: Config, c: Cluster, e: Label, a: Record)
    requires SendsRecorded(cfg, c) && a in Apply(cfg, c, e).acks
    ensures || a in c.acks || Justified(Apply(cfg, c, e), a)
            || (Runs(c, e) && At(c, e.who).pc.ForgetMissing? && a == RecordOf(cfg, c, e.who))
  {
    hide Apply, Proceed, SentKey, SentCoolDown;
    SendsAreKept(cfg, c, e);
    ApplyAcks(cfg, c, e);
    if Runs(c, e) {
      StepLocals(cfg, c, e);
      AckFlow(cfg, e.who, c.store, At(c, e.who), e.reply.Done?, e.delivery);
    }
  }

  /** A handler that finds the counter gone acknowledges, whatever Redis answers. */
  lemma ForgettingAcks(cfg: Config, c: Cluster, e: Label)
    ensures Runs(c, e) && At(c, e.who).pc.ForgetMissing? ==> RecordOf(cfg, c, e.who) in Apply(cfg, c, e).acks
    ensures forall a | a in c.acks :: a in Apply(cfg, c, e).acks
  {
    hide Issue, CreditAfter, LeaksAfter, LeaksAfterDrop, Begin, CoolDownKey;
  }

  lemma ForgottenGrows(cfg: Config, run: seq<Label>, n: nat, a: Record)
    requires n + 1 == |run| && Forgotten(cfg, run[..n], a)
    ensures Forgotten(cfg, run, a)
  {
    hide Exec;
    var m :| 0 <= m < n && ForgetsAt(cfg, run[..n], m, a);
    assert run[..n][..m] == run[..m];
    assert ForgetsAt(cfg, run, m, a);
  }

  lemma {:induction false} AckedIsSentOrForgotten(cfg: Config, run: seq<Label>, a: Record)
    requires a in Exec(cfg, run).acks
    ensures Justified(Exec(cfg, run), a) || Forgotten(cfg, run, a)
  {
    hide Apply;
    if run == [] {
      assert false;
    }
    hide SendsRecorded, SentKey, SentCoolDown;
    var n := |run| - 1;
    var c, e := Exec(cfg, run[..n]), run[n];
    RunsRecordSends(cfg, run[..n]);
    SendsAreKept(cfg, c, e);
    StepJustifies(cfg, c, e, a);
    if a in c.acks {
      AckedIsSentOrForgotten(cfg, run[..n], a);
      if Forgotten(cfg, run[..n], a) {
        ForgottenGrows(cfg, run, n, a);
      }
    } else if !Justified(Exec(cfg, run), a) {
      assert ForgetsAt(cfg, run, n, a);
    }
  }

  lemma {:induction false} ForgottenIsAcked(cfg: Config, run: seq<Label>, m: nat, a: Record)
    requires m < |run| && ForgetsAt(cfg, run, m, a)
    ensures a in Exec(cfg, run).acks
  {
    hide Apply;
    var n := |run| - 1;
    ForgettingAcks(cfg, Exec(cfg, run[..n]), run[n]);
    if m < n {
      assert run[..n][..m] == run[..m];
      ForgottenIsAcked(cfg, run[..n], m, a);
    }
  }

  /**
   In every run, whatever fails, expires, is evicted or crashes, the findings
   acknowledged without a send for their key or cool-down key are exactly those that
   a handler forgot because it found their counter gone.
   */
  lemma LostIsForgotten(cfg: Config, run: seq<Label>)
    ensures var c := Exec(cfg, run);
            forall a :: a in c.acks && !Justified(c, a) <==> Forgotten(cfg, run, a) && !Justified(c, a)
  {
    hide Exec, ForgetsAt, Justified;
    var c := Exec(cfg, run);
    forall a ensures a in c.acks && !Justified(c, a) <==> Forgotten(cfg, run, a) && !Justified(c, a) {
      if a in c.acks {
        AckedIsSentOrForgotten(cfg, run, a);
      }
      if Forgotten(cfg, run, a) {
        var m :| 0 <= m < |run| && ForgetsAt(cfg, run, m, a);
        ForgottenIsAcked(cfg, run, m, a);
      }
    }
  }

  // ----- no lost finding -----

  /** The cache of this instance, or its call, relies on the counter of k. */
  predicate Relies(l: Local, k: string) {
    || k in l.cache
    || (l.finding.uniqueKey == k && (l.pc.Remember? || l.pc.Touch? || l.pc.ReadCount? || l.pc.Send? || l.pc.Retract?))
  }

  /** The counter of k does not expire while somebody relies on it, and its first EXPIRE does not fail. */
  ghost predicate CounterLasts(c: Cluster, e: Label, k: string) {
    && (forall i | Relies(At(c, i), k) && k in c.store.count :: Alive(c.store.count[k], c.store.now))
    && (Runs(c, e) && At(c, e.who).pc.SetCountTtl? && At(c, e.who).finding.uniqueKey == k ==> e.reply.Done?)
  }

  ghost predicate LastingRun(cfg: Config, run: seq<Label>, k: string) {
    run != [] ==>
      && LastingRun(cfg, run[..|run| - 1], k)
      && CounterLasts(Exec(cfg, run[..|run| - 1]), run[|run| - 1], k)
  }

  /** Whoever relies on the counter of k finds it, and nobody is about to delete or to miss it. */
  predicate Anchored(l: Local, count: Table<string, int>, k: string) {
    && (Relies(l, k) ==> k in count)
    && (l.finding.uniqueKey == k ==>
          && (l.pc.Send? || l.pc.Retract? ==> k in count && count[k].value >= 2)
          && !l.pc.ForgetUnexpirable? && !l.pc.DropUnexpirable? && !l.pc.ForgetMissing? && !l.pc.DropCount?)
  }

  ghost predicate AllAnchored(c: Cluster, k: string) {
    forall i :: Anchored(At(c, i), c.store.count, k)
  }

  /** What a step does to the caller's reliance on k, with the counters as they were. */
  predicate KeepsAnchor(st: Store, l: Local, l': Local, ok: bool, k: string) {
    && l'.finding == l.finding
    && (l.finding.uniqueKey != k || (!l.pc.Increment? && !l.pc.Retract?) ==> Anchored(l', st.count, k))
    && (l.finding.uniqueKey == k && l.pc.Increment? ==>
          l'.cache == l.cache && (l'.pc.Idle? || (ok && Increments(st, k) && l'.pc.Remember?)))
    && (l.finding.uniqueKey == k && l.pc.Retract? ==> l'.cache == l.cache && l'.pc.ReleaseStatus?)
  }

  lemma AnchorFlow(cfg: Config, i: Instance, st: Store, l: Local, ok: bool, d: Delivery, k: string)
    requires !l.pc.Idle? && cfg.quorumSize >= 2 && Anchored(l, st.count, k)
    requires Relies(l, k) && k in st.count ==> Alive(st.count[k], st.now)
    requires l.pc.SetCountTtl? && l.finding.uniqueKey == k ==> ok
    ensures KeepsAnchor(st, l, Proceed(cfg, i, st, l, ok, d), ok, k)
  {
    hide Collect, Decide, Deliver, Debug, KeepsAnchor;
    if Collecting(l.pc) {
      AnchorCollect(cfg, st, l, ok, k);
    } else if Deciding(l.pc) {
      AnchorDecide(cfg, st, l, ok, k);
    } else {
      AnchorDeliver(cfg, i, st, l, ok, d, k);
    }
  }

  lemma AnchorCollect(cfg: Config, st: Store, l: Local, ok: bool, k: string)
    requires Collecting(l.pc) && Anchored(l, st.count, k)
    requires Relies(l, k) && k in st.count ==> Alive(st.count[k], st.now)
    requires l.pc.SetCountTtl? && l.finding.uniqueKey == k ==> ok
    ensures KeepsAnchor(st, l, Collect(cfg, st, l, ok), ok, k)
  {
  }

  lemma AnchorDecide(cfg: Config, st: Store, l: Local, ok: bool, k: string)
    requires Deciding(l.pc) && cfg.quorumSize >= 2 && Anchored(l, st.count, k)
    ensures KeepsAnchor(st, l, Decide(cfg, st, l, ok), ok, k)
  {
    hide CoolDownKey;
  }

  lemma AnchorDeliver(cfg: Config, i: Instance, st: Store, l: Local, ok: bool, d: Delivery, k: string)
    requires (Sending(l.pc) || Debugging(l.pc)) && Anchored(l, st.count, k)
    requires Relies(l, k) && k in st.count ==> Alive(st.count[k], st.now)
    ensures KeepsAnchor(st, l, if Sending(l.pc) then Deliver(st, l, ok, d) else Debug(i, st, l, ok, d), ok, k)
  {
  }

  lemma StepKeepsAnchors(cfg: Config, c: Cluster, e: Label, j: Instance, k: string)
    requires cfg.quorumSize >= 2 && Exclusive(c) && AllAnchored(c, k) && Runs(c, e) && CounterLasts(c, e, k)
    ensures Anchored(At(Apply(cfg, c, e), j), Apply(cfg, c, e).store.count, k)
  {
    hide Apply, Proceed;
    var c', i := Apply(cfg, c, e), e.who;
    StepLocals(cfg, c, e);
    assert Anchored(At(c, i), c.store.count, k) && Anchored(At(c, j), c.store.count, k);
    AnchorFlow(cfg, i, c.store, At(c, i), e.reply.Done?, e.delivery, k);
    ApplyCounts(cfg, c, e);
    assert k in c.store.count ==> k in c'.store.count;
    assert Holding(At(c, i).pc) && Holds(c, j, At(c, i).finding.uniqueKey) ==> i == j;
  }

  lemma {:induction false} LastingRunsAreAnchored(cfg: Config, run: seq<Label>, k: string)
    requires cfg.quorumSize >= 2 && PromptRun(cfg, run) && LastingRun(cfg, run, k)
    ensures AllAnchored(Exec(cfg, run), k)
  {
    hide Apply;
    if run != [] {
      var c, e := Exec(cfg, run[..|run| - 1]), run[|run| - 1];
      LastingRunsAreAnchored(cfg, run[..|run| - 1], k);
      PromptRunsAreExclusive(cfg, run[..|run| - 1]);
      forall j ensures Anchored(At(Apply(cfg, c, e), j), Apply(cfg, c, e).store.count, k) {
        if Runs(c, e) {
          StepKeepsAnchors(cfg, c, e, j, k);
        } else {
          OthersKeepAnchors(cfg, c, e, j, k);
        }
      }
    }
  }

  lemma OthersKeepAnchors(cfg: Config, c: Cluster, e: Label, j: Instance, k: string)
    requires AllAnchored(c, k) && !Runs(c, e)
    ensures Anchored(At(Apply(cfg, c, e), j), Apply(cfg, c, e).store.count, k)
  {
    hide Apply, CoolDownKey;
    assert Anchored(At(c, j), c.store.count, k);
    OtherLocals(cfg, c, e, j);
    ApplyCounts(cfg, c, e);
  }

  lemma {:induction false} LastingRunsForgetNothing(cfg: Config, run: seq<Label>, m: nat, a: Record)
    requires cfg.quorumSize >= 2 && PromptRun(cfg, run) && LastingRun(cfg, run, a.key) && m < |run|
    ensures !ForgetsAt(cfg, run, m, a)
  {
    hide Exec;
    var n := |run| - 1;
    if m < n {
      LastingRunsForgetNothing(cfg, run[..n], m, a);
      assert run[..n][..m] == run[..m];
    } else if run[n].Step? {
      LastingRunsAreAnchored(cfg, run[..n], a.key);
      assert Anchored(At(Exec(cfg, run[..n]), run[n].who), Exec(cfg, run[..n]).store.count, a.key);
    }
  }

  /** The counter lasts until the finding is sent; what becomes of it afterwards does not matter. */
  ghost predicate LastsUntilSent(cfg: Config, run: seq<Label>, k: string) {
    run != [] ==>
      && LastsUntilSent(cfg, run[..|run| - 1], k)
      && (SentKey(Exec(cfg, run[..|run| - 1]), k) || CounterLasts(Exec(cfg, run[..|run| - 1]), run[|run| - 1], k))
  }

  lemma {:induction false} UnsentLasts(cfg: Config, run: seq<Label>, k: string)
    ensures LastsUntilSent(cfg, run, k) ==> SentKey(Exec(cfg, run), k) || LastingRun(cfg, run, k)
    ensures LastingRun(cfg, run, k) ==> LastsUntilSent(cfg, run, k)
  {
    hide Apply, SentKey, SentCoolDown, CounterLasts;
    if run != [] {
      UnsentLasts(cfg, run[..|run| - 1], k);
      SendsAreKept(cfg, Exec(cfg, run[..|run| - 1]), run[|run| - 1]);
    }
  }

  /**
   No lost finding: with a quorum of two or more, a finding that passed the filters
   is acknowledged only after SendFinding succeeded for its key or for its cool-down
   key, provided that its own counter does not expire while an instance relies on it
   and it has not been sent. Until it is sent, or as long as its counter lasts, the
   branch that acknowledges a finding whose counter is gone is not reached. What
   happens to the counters of other findings does not matter.
   */
  lemma NoLostFinding(cfg: Config, run: seq<Label>, k: string)
    requires cfg.quorumSize >= 2 && PromptRun(cfg, run) && LastsUntilSent(cfg, run, k)
    ensures var c := Exec(cfg, run);
            && (!SentKey(c, k) || LastingRun(cfg, run, k) ==>
                  forall i | At(c, i).finding.uniqueKey == k :: !At(c, i).pc.ForgetMissing?)
            && (forall a | a in c.acks && a.key == k ::
                  exists r :: r in c.sends && (r.key == k || r.coolDownKey == a.coolDownKey))
  {
    UnsentLasts(cfg, run, k);
    if LastingRun(cfg, run, k) {
      LastingRunsLoseNothing(cfg, run, k);
    }
    hide Exec;
    forall a | a in Exec(cfg, run).acks && a.key == k ensures Justified(Exec(cfg, run), a) {
    }
  }

  lemma LastingRunsLoseNothing(cfg: Config, run: seq<Label>, k: string)
    requires cfg.quorumSize >= 2 && PromptRun(cfg, run) && LastingRun(cfg, run, k)
    ensures var c := Exec(cfg, run);
            && (forall i | At(c, i).finding.uniqueKey == k :: !At(c, i).pc.ForgetMissing?)
            && (forall a | a in c.acks && a.key == k :: Justified(c, a))
  {
    LastingRunsAreAnchored(cfg, run, k);
    LostIsForgotten(cfg, run);
    hide Exec, ForgetsAt, Justified;
    var c := Exec(cfg, run);
    forall i | At(c, i).finding.uniqueKey == k ensures !At(c, i).pc.ForgetMissing? {
      assert Anchored(At(c, i), c.store.count, k);
    }
    forall a | a in c.acks && a.key == k ensures Justified(c, a) {
      if Forgotten(cfg, run, a) {
        var m :| 0 <= m < |run| && ForgetsAt(cfg, run, m, a);
        LastingRunsForgetNothing(cfg, run, m, a);
      }
    }
  }

  /** While the counter lasts, the DECR of a rollback never reaches zero, so no rollback deletes the counter. */
  lemma RollbacksKeepCounter(cfg: Config, run: seq<Label>, k: string)
    requires cfg.quorumSize >= 2 && PromptRun(cfg, run) && LastingRun(cfg, run, k)
    ensures var c := Exec(cfg, run);
            forall i | At(c, i).finding.uniqueKey == k ::
              && (At(c, i).pc.Retract? ==> k in c.store.count && c.store.count[k].value - 1 > 0)
              && !At(c, i).pc.DropCount? && !At(c, i).pc.DropUnexpirable?
  {
    LastingRunsAreAnchored(cfg, run, k);
    hide Exec;
    forall i ensures Anchored(At(Exec(cfg, run), i), Exec(cfg, run).store.count, k) {
    }
  }

  // ----- how far the condition is from necessary -----

  /** A handler is told that the counter of k does not exist. */
  predicate FindsGone(c: Cluster, e: Label, k: string) {
    && Runs(c, e) && At(c, e.who).pc.ReadCount? && At(c, e.who).finding.uniqueKey == k && e.reply.Done?
    && !Exists(c.store.count, k, c.store.now)
  }

  /** That is how a handler comes to forget a finding, and the only way. */
  lemma ForgetsWhatIsGone(cfg: Config, c: Cluster, e: Label, i: Instance, k: string)
    ensures var l, l' := At(c, i), At(Apply(cfg, c, e), i);
            && (FindsGone(c, e, k) && e.who == i ==> l'.pc.ForgetMissing? && l'.finding.uniqueKey == k)
            && (l'.pc.ForgetMissing? && l'.finding.uniqueKey == k ==>
                  (l.pc.ForgetMissing? && l.finding.uniqueKey == k) || (FindsGone(c, e, k) && e.who == i))
  {
    hide Apply, CoolDownKey;
    if Runs(c, e) {
      StepLocals(cfg, c, e);
    } else {
      OtherLocals(cfg, c, e, i);
    }
  }

  ghost predicate NeverGone(cfg: Config, run: seq<Label>, k: string) {
    run != [] ==>
      && NeverGone(cfg, run[..|run| - 1], k)
      && !FindsGone(Exec(cfg, run[..|run| - 1]), run[|run| - 1], k)
  }

  lemma {:induction false} NobodyForgets(cfg: Config, run: seq<Label>, m: nat, i: Instance, k: string)
    requires NeverGone(cfg, run, k) && m <= |run|
    ensures !(At(Exec(cfg, run[..m]), i).pc.ForgetMissing? && At(Exec(cfg, run[..m]), i).finding.uniqueKey == k)
  {
    hide Apply;
    if run != [] {
      var n := |run| - 1;
      if m <= n {
        NobodyForgets(cfg, run[..n], m, i, k);
        assert run[..n][..m] == run[..m];
      } else {
        NobodyForgets(cfg, run[..n], n, i, k);
        ForgetsWhatIsGone(cfg, Exec(cfg, run[..n]), run[n], i, k);
        assert run[..n][..n] == run[..n] && run[..m] == run;
      }
    }
  }

  /**
   For any quorum, and with any failures, expiries, evictions and crashes: as long as
   no handler is told that the counter of k does not exist, no finding with key k is
   lost. One that is told so acknowledges its message next, unless it crashes first
   (`ForgetsWhatIsGone`, `ForgettingAcks`); `NoLostFinding` gives a condition on
   lifetimes that keeps this from happening.
   */
  lemma LostOnlyWhenGone(cfg: Config, run: seq<Label>, k: string)
    requires NeverGone(cfg, run, k)
    ensures var c := Exec(cfg, run);
            forall a | a in c.acks && a.key == k :: Justified(c, a)
  {
    LostIsForgotten(cfg, run);
    hide Exec, ForgetsAt, Justified;
    var c := Exec(cfg, run);
    forall a | a in c.acks && a.key == k ensures Justified(c, a) {
      if Forgotten(cfg, run, a) {
        var m :| 0 <= m < |run| && ForgetsAt(cfg, run, m, a);
        NothingForgotten(cfg, run, m, a);
      }
    }
  }

  lemma NothingForgotten(cfg: Config, run: seq<Label>, m: nat, a: Record)
    requires NeverGone(cfg, run, a.key) && m < |run|
    ensures !ForgetsAt(cfg, run, m, a)
  {
    hide Exec;
    if ForgetsAt(cfg, run, m, a) {
      NobodyForgets(cfg, run, m, run[m].who, a.key);
    }
  }
}
