/**
 When the path without quorum loses a finding: it acknowledges one whose key exists,
 and the key need not stand for a send. The exact condition, in every run.
 */
module QuorumDebugLoss {
  import opened GoInts
  import opened Redis
  import opened QuorumModel
  import opened QuorumSteps
  import opened QuorumDebug

  predicate KeyLives(c: Cluster, i: Instance, k: string) {
    Exists(c.store.dedup, (i, k), c.store.now)
  }

  /** The call of i on k is between its claim of the key and its send, or the DEL after a failed one. */
  predicate Standing(c: Cluster, i: Instance, k: string) {
    ClaimedDebug(At(c, i).pc) && At(c, i).finding.uniqueKey == k
  }

  /** Label e is a step of i on k. */
  predicate StepOn(c: Cluster, e: Label, i: Instance, k: string) {
    Runs(c, e) && e.who == i && At(c, i).finding.uniqueKey == k
  }

  /** The channel accepts the finding. */
  predicate Sends(c: Cluster, e: Label, i: Instance, k: string) {
    StepOn(c, e, i, k) && At(c, i).pc.SendDebug? && e.delivery.Delivered?
  }

  /**
   The events that leave a key behind without a send: a SETNX whose answer is lost, a
   DEL without effect after a failed send, and a crash between claim and settlement.
   */
  predicate Orphans(c: Cluster, e: Label, i: Instance, k: string) {
    || (StepOn(c, e, i, k) && At(c, i).pc.SetDedup? && !KeyLives(c, i, k) && e.reply == Failed(true))
    || (StepOn(c, e, i, k) && At(c, i).pc.DropDedup? && !TakesEffect(e.reply))
    || (e == Crash(i) && Standing(c, i, k))
  }

  /** The key was orphaned, and has lived ever since. */
  ghost predicate Orphaned(cfg: Config, run: seq<Label>, i: Instance, k: string) {
    && run != [] && KeyLives(Exec(cfg, run), i, k)
    && (Orphaned(cfg, run[..|run| - 1], i, k) || Orphans(Exec(cfg, run[..|run| - 1]), run[|run| - 1], i, k))
  }

  /** The finding was accepted from i, and its key has lived ever since. */
  ghost predicate SentSince(cfg: Config, run: seq<Label>, i: Instance, k: string) {
    && run != [] && KeyLives(Exec(cfg, run), i, k)
    && (SentSince(cfg, run[..|run| - 1], i, k) || Sends(Exec(cfg, run[..|run| - 1]), run[|run| - 1], i, k))
  }

  predicate ExactlyOne(a: bool, b: bool, c: bool) {
    (a || b || c) && !(a && b) && !(a && c) && !(b && c)
  }

  /** How one label moves a key between a call, an orphan and a send. */
  lemma KeyFlow(cfg: Config, c: Cluster, e: Label, i: Instance, k: string, orphaned: bool, sent: bool)
    requires if KeyLives(c, i, k) then ExactlyOne(Standing(c, i, k), orphaned, sent) else !orphaned && !sent
    requires KeyLives(Apply(cfg, c, e), i, k)
    ensures ExactlyOne(Standing(Apply(cfg, c, e), i, k), orphaned || Orphans(c, e, i, k), sent || Sends(c, e, i, k))
  {
    hide Apply, Proceed, CoolDownKey;
    ApplyStatuses(cfg, c, e);
    ApplyDebug(cfg, c, e);
    if Runs(c, e) {
      StepLocals(cfg, c, e);
      if e.who == i {
        CallFlow(cfg, i, c.store, At(c, i), e.reply.Done?, e.delivery);
      }
    } else {
      OthersStand(cfg, c, e, i);
    }
  }

  lemma CallFlow(cfg: Config, i: Instance, st: Store, l: Local, ok: bool, d: Delivery)
    requires !l.pc.Idle?
    ensures var l', k := Proceed(cfg, i, st, l, ok, d), (i, l.finding.uniqueKey);
            && l'.finding == l.finding
            && (ClaimedDebug(l'.pc) <==>
                || (l.pc.SetDedup? && ok && !Exists(st.dedup, k, st.now))
                || (l.pc.SendDebug? && !d.Delivered?))
  {
    hide CoolDownKey, AsUint64, Claimable, Increments, Number;
  }

  lemma OthersStand(cfg: Config, c: Cluster, e: Label, i: Instance)
    requires !Runs(c, e)
    ensures var c' := Apply(cfg, c, e);
            && (ClaimedDebug(At(c', i).pc) ==> At(c', i).finding == At(c, i).finding && ClaimedDebug(At(c, i).pc))
            && (ClaimedDebug(At(c, i).pc) && e != Crash(i) ==>
                  At(c', i).pc == At(c, i).pc && At(c', i).finding == At(c, i).finding)
            && (e == Crash(i) ==> At(c', i) == FRESH)
  {
    OtherLocals(cfg, c, e, i);
  }

  /** In every run a key that exists belongs to a call in progress, is an orphan, or stands for a send. */
  lemma {:induction false} KeysHaveOneCause(cfg: Config, run: seq<Label>, i: Instance, k: string)
    ensures KeyLives(Exec(cfg, run), i, k) ==>
              ExactlyOne(Standing(Exec(cfg, run), i, k), Orphaned(cfg, run, i, k), SentSince(cfg, run, i, k))
  {
    hide Apply, KeyLives, Standing, Orphans, Sends;
    if run == [] {
      NoKeyYet(i, k);
    } else {
      var before := run[..|run| - 1];
      KeysHaveOneCause(cfg, before, i, k);
      if KeyLives(Exec(cfg, run), i, k) {
        KeyFlow(cfg, Exec(cfg, before), run[|run| - 1], i, k,
                Orphaned(cfg, before, i, k), SentSince(cfg, before, i, k));
      }
    }
  }

  lemma NoKeyYet(i: Instance, k: string)
    ensures !KeyLives(INIT, i, k)
  {
  }

  /**
   In every run, whatever fails and whoever crashes: the key of an instance exists,
   with none of its calls at work on it and no send of it accepted in the key's life,
   if and only if one of the three events orphaned it and it has lived ever since.
   */
  lemma OrphanedExactly(cfg: Config, run: seq<Label>)
    ensures var c := Exec(cfg, run);
            forall i, k :: Orphaned(cfg, run, i, k) <==>
                             KeyLives(c, i, k) && !Standing(c, i, k) && !SentSince(cfg, run, i, k)
  {
    hide Exec, KeyLives, Standing;
    forall i, k
      ensures Orphaned(cfg, run, i, k) <==>
                KeyLives(Exec(cfg, run), i, k) && !Standing(Exec(cfg, run), i, k) && !SentSince(cfg, run, i, k)
    {
      KeysHaveOneCause(cfg, run, i, k);
    }
  }

  /** A send counted here is in the record. */
  lemma {:induction false} SentSinceIsRecorded(cfg: Config, run: seq<Label>, i: Instance, k: string)
    requires SentSince(cfg, run, i, k)
    ensures exists r :: r in Exec(cfg, run).debugSends && r.instance == i && r.key == k
  {
    hide Apply, KeyLives, CoolDownKey;
    var c, e := Exec(cfg, run[..|run| - 1]), run[|run| - 1];
    ApplyDebug(cfg, c, e);
    if SentSince(cfg, run[..|run| - 1], i, k) {
      SentSinceIsRecorded(cfg, run[..|run| - 1], i, k);
      var r :| r in c.debugSends && r.instance == i && r.key == k;
      assert r in Exec(cfg, run).debugSends;
    } else {
      assert RecordOf(cfg, c, i) in Exec(cfg, run).debugSends;
    }
  }

  // ----- acknowledgements -----

  /** The call of i on k acknowledges its message. */
  predicate Acknowledges(cfg: Config, c: Cluster, e: Label, i: Instance, k: string) {
    && StepOn(c, e, i, k) && Debugging(At(c, i).pc)
    && At(Apply(cfg, c, e), i).settled == At(c, i).settled + [Ack]
  }

  lemma AckFlow(cfg: Config, i: Instance, st: Store, l: Local, ok: bool, d: Delivery)
    requires Debugging(l.pc)
    ensures Proceed(cfg, i, st, l, ok, d).settled == l.settled + [Ack] <==>
              || (l.pc.SendDebug? && d.Delivered?)
              || (l.pc.SetDedup? && ok && Exists(st.dedup, (i, l.finding.uniqueKey), st.now))
  {
    hide Collect, Decide, Deliver, CoolDownKey;
    assert forall s {:trigger Finish(l, s)} :: Finish(l, s).settled[|l.settled|] == s;
    assert (l.settled + [Ack])[|l.settled|] == Ack;
  }

  lemma AcknowledgesWhen(cfg: Config, c: Cluster, e: Label, i: Instance, k: string)
    ensures Acknowledges(cfg, c, e, i, k) <==>
              || Sends(c, e, i, k)
              || (StepOn(c, e, i, k) && At(c, i).pc.SetDedup? && e.reply.Done? && KeyLives(c, i, k))
  {
    hide Apply, Proceed;
    if StepOn(c, e, i, k) && Debugging(At(c, i).pc) {
      StepLocals(cfg, c, e);
      AckFlow(cfg, i, c.store, At(c, i), e.reply.Done?, e.delivery);
    }
  }

  /**
   In every run a debug finding that an instance acknowledges was accepted from it,
   by this call or in the life of its key, if and only if the key is no orphan. A
   finding is lost exactly through an orphaned key.
   */
  lemma LostIsOrphaned(cfg: Config, run: seq<Label>)
    ensures var c := Exec(cfg, run);
            forall e, i, k | Acknowledges(cfg, c, e, i, k) ::
              Sends(c, e, i, k) || SentSince(cfg, run, i, k) <==> !Orphaned(cfg, run, i, k)
  {
    hide Exec, Acknowledges, Orphaned, SentSince, Sends;
    forall e, i, k | Acknowledges(cfg, Exec(cfg, run), e, i, k)
      ensures Sends(Exec(cfg, run), e, i, k) || SentSince(cfg, run, i, k) <==> !Orphaned(cfg, run, i, k)
    {
      AcknowledgedIsSentOrOrphaned(cfg, run, e, i, k);
    }
  }

  lemma AcknowledgedIsSentOrOrphaned(cfg: Config, run: seq<Label>, e: Label, i: Instance, k: string)
    requires Acknowledges(cfg, Exec(cfg, run), e, i, k)
    ensures Sends(Exec(cfg, run), e, i, k) || SentSince(cfg, run, i, k) <==> !Orphaned(cfg, run, i, k)
  {
    hide Exec, Acknowledges, Orphaned, SentSince;
    AcknowledgesWhen(cfg, Exec(cfg, run), e, i, k);
    KeysHaveOneCause(cfg, run, i, k);
    OrphansLive(cfg, run, i, k);
  }

  lemma OrphansLive(cfg: Config, run: seq<Label>, i: Instance, k: string)
    ensures Orphaned(cfg, run, i, k) || SentSince(cfg, run, i, k) ==> KeyLives(Exec(cfg, run), i, k)
  {
    hide Exec, KeyLives;
  }

  ghost predicate NeverOrphaned(cfg: Config, run: seq<Label>, i: Instance, k: string) {
    run != [] ==>
      && NeverOrphaned(cfg, run[..|run| - 1], i, k)
      && !Orphans(Exec(cfg, run[..|run| - 1]), run[|run| - 1], i, k)
  }

  lemma {:induction false} NoOrphan(cfg: Config, run: seq<Label>, i: Instance, k: string)
    requires NeverOrphaned(cfg, run, i, k)
    ensures !Orphaned(cfg, run, i, k)
  {
    hide Exec, KeyLives, Orphans;
    if run != [] {
      NoOrphan(cfg, run[..|run| - 1], i, k);
    }
  }

  /** Without those three events no debug finding is lost: each acknowledgement has its accepted send. */
  lemma NoDebugFindingLost(cfg: Config, run: seq<Label>)
    ensures var c := Exec(cfg, run);
            forall e, i, k | NeverOrphaned(cfg, run, i, k) && Acknowledges(cfg, c, e, i, k) ::
              Sends(c, e, i, k) || exists r :: r in c.debugSends && r.instance == i && r.key == k
  {
    hide Exec, Acknowledges, Orphaned, SentSince, NeverOrphaned, Sends;
    var c := Exec(cfg, run);
    forall e, i, k | NeverOrphaned(cfg, run, i, k) && Acknowledges(cfg, c, e, i, k)
      ensures Sends(c, e, i, k) || exists r :: r in c.debugSends && r.instance == i && r.key == k
    {
      NoOrphan(cfg, run, i, k);
      AcknowledgedIsSentOrOrphaned(cfg, run, e, i, k);
      if !Sends(c, e, i, k) {
        SentSinceIsRecorded(cfg, run, i, k);
        var r :| r in c.debugSends && r.instance == i && r.key == k;
      }
    }
  }

  // ----- an instance of each -----

  /** One instance at work, no time gone. */
  ghost predicate Alone(c: Cluster) {
    c.store.now == 0 && At(c, 0).start == 0 && c.debugSends == [] && forall j | j != 0 :: At(c, j) == FRESH
  }

  lemma AloneIsPrompt(cfg: Config, run: seq<Label>, e: Label)
    requires PromptRun(cfg, run) && Alone(Apply(cfg, Exec(cfg, run), e))
    ensures PromptRun(cfg, run + [e])
  {
    hide Apply;
    ExecOne(cfg, run, e);
    assert (run + [e])[..|run|] == run;
  }

  lemma DebugReceived(cfg: Config, c: Cluster, f: Finding)
    requires !cfg.byQuorum && !Filtered(cfg, f) && Alone(c) && At(c, 0).pc.Idle?
    ensures var c' := Apply(cfg, c, Receive(0, Parsed(f)));
            && Alone(c') && c'.store == c.store
            && At(c', 0).pc.SetDedup? && At(c', 0).finding == f && At(c', 0).settled == []
  {
    hide Filtered;
    assert forall j | j != 0 :: At(Apply(cfg, c, Receive(0, Parsed(f))), j) == At(c, j);
  }

  /** One command or send of the call, as the instances below need them. */
  lemma OneStep(cfg: Config, c: Cluster, r: Reply)
    requires Alone(c) && Debugging(At(c, 0).pc) && At(c, 0).settled == []
    ensures var c', l, k := Apply(cfg, c, Step(0, r, NotDelivered)), At(c, 0), At(c, 0).finding.uniqueKey;
            && Alone(c') && At(c', 0).finding == l.finding
            && (l.pc.SetDedup? && r == Failed(true) ==> At(c', 0).pc.Idle? && KeyLives(c', 0, k))
            && (l.pc.SetDedup? && r == Done && !KeyLives(c, 0, k) ==>
                  At(c', 0).pc.SendDebug? && At(c', 0).settled == [] && KeyLives(c', 0, k))
            && (l.pc.SetDedup? && r == Done && KeyLives(c, 0, k) ==> At(c', 0).pc.Idle? && At(c', 0).settled == [Ack])
            && (l.pc.SendDebug? ==> At(c', 0).pc.DropDedup? && At(c', 0).settled == [] && c'.store == c.store)
            && (l.pc.DropDedup? && r == Failed(false) ==> At(c', 0).pc.Idle? && c'.store == c.store)
  {
    hide Apply, CoolDownKey;
    StepIsCommand(cfg, c, Step(0, r, NotDelivered));
    StepLocals(cfg, c, Step(0, r, NotDelivered));
    ApplyDebug(cfg, c, Step(0, r, NotDelivered));
  }

  /** The instance settled f as acknowledged, and nobody has sent it; calls took no time. */
  ghost predicate Lost(cfg: Config, run: seq<Label>, f: Finding) {
    && PromptRun(cfg, run) && At(Exec(cfg, run), 0).finding == f && At(Exec(cfg, run), 0).settled == [Ack]
    && Exec(cfg, run).debugSends == []
  }

  predicate Calm(run: seq<Label>) {
    forall e | e in run :: !e.Evict? && !e.Crash?
  }

  /** A state the instances pass through. */
  ghost predicate Reached(cfg: Config, run: seq<Label>, f: Finding, pc: Pc) {
    && PromptRun(cfg, run) && Alone(Exec(cfg, run))
    && At(Exec(cfg, run), 0).pc == pc && At(Exec(cfg, run), 0).finding == f && At(Exec(cfg, run), 0).settled == []
  }

  /** A redelivery that meets a key nobody sent for loses the finding. */
  lemma RedeliveryLoses(cfg: Config, run: seq<Label>, f: Finding)
    requires !cfg.byQuorum && !Filtered(cfg, f) && PromptRun(cfg, run) && Alone(Exec(cfg, run))
    requires At(Exec(cfg, run), 0).pc.Idle? && KeyLives(Exec(cfg, run), 0, f.uniqueKey)
    ensures Lost(cfg, run + [Receive(0, Parsed(f))] + [Step(0, Done, NotDelivered)], f)
  {
    hide Exec, Apply, Filtered, Alone, PromptRun;
    var receive, answered := Receive(0, Parsed(f)), Step(0, Done, NotDelivered);
    var run1 := run + [receive];
    ExecOne(cfg, run, receive);
    DebugReceived(cfg, Exec(cfg, run), f);
    AloneIsPrompt(cfg, run, receive);
    ExecOne(cfg, run1, answered);
    OneStep(cfg, Exec(cfg, run1), Done);
    AloneIsPrompt(cfg, run1, answered);
    AloneSendsNothing(Exec(cfg, run1 + [answered]));
  }

  lemma DeliveryReaches(cfg: Config, f: Finding)
    requires !cfg.byQuorum && !Filtered(cfg, f)
    ensures Reached(cfg, [] + [Receive(0, Parsed(f))], f, SetDedup)
    ensures !KeyLives(Exec(cfg, [] + [Receive(0, Parsed(f))]), 0, f.uniqueKey)
  {
    hide Exec, Apply, Filtered, Alone, PromptRun;
    NoTime(cfg);
    NoKeyYet(0, f.uniqueKey);
    ExecOne(cfg, [], Receive(0, Parsed(f)));
    DebugReceived(cfg, INIT, f);
    AloneIsPrompt(cfg, [], Receive(0, Parsed(f)));
  }

  lemma StepReaches(cfg: Config, run: seq<Label>, f: Finding, pc: Pc, r: Reply) returns (run': seq<Label>)
    requires Debugging(pc) && Reached(cfg, run, f, pc)
    ensures run' == run + [Step(0, r, NotDelivered)]
    ensures Exec(cfg, run') == Apply(cfg, Exec(cfg, run), Step(0, r, NotDelivered))
    ensures PromptRun(cfg, run') && Alone(Exec(cfg, run'))
  {
    hide Exec, Apply, Alone, PromptRun;
    run' := run + [Step(0, r, NotDelivered)];
    ExecOne(cfg, run, Step(0, r, NotDelivered));
    OneStep(cfg, Exec(cfg, run), r);
    AloneIsPrompt(cfg, run, Step(0, r, NotDelivered));
  }

  /** The answer of SETNX is lost. */
  lemma LostAnswerLosesDebugFinding(cfg: Config, f: Finding)
    requires !cfg.byQuorum && !Filtered(cfg, f)
    ensures exists run :: Lost(cfg, run, f) && Calm(run)
  {
    hide Exec, Apply, Filtered, Alone, PromptRun, Lost, KeyLives;
    var run1 := [] + [Receive(0, Parsed(f))];
    DeliveryReaches(cfg, f);
    OneStep(cfg, Exec(cfg, run1), Failed(true));
    var run2 := StepReaches(cfg, run1, f, SetDedup, Failed(true));
    RedeliveryLoses(cfg, run2, f);
    assert Calm(run2 + [Receive(0, Parsed(f))] + [Step(0, Done, NotDelivered)]);
  }

  lemma ClaimReaches(cfg: Config, f: Finding) returns (run: seq<Label>)
    requires !cfg.byQuorum && !Filtered(cfg, f)
    ensures Reached(cfg, run, f, SendDebug) && KeyLives(Exec(cfg, run), 0, f.uniqueKey) && Calm(run)
  {
    hide Exec, Apply, Filtered, Alone, PromptRun, KeyLives;
    run := [] + [Receive(0, Parsed(f))];
    DeliveryReaches(cfg, f);
    OneStep(cfg, Exec(cfg, run), Done);
    run := StepReaches(cfg, run, f, SetDedup, Done);
  }

  /** The send fails, and the DEL after it as well. */
  lemma FailedDelLosesDebugFinding(cfg: Config, f: Finding)
    requires !cfg.byQuorum && !Filtered(cfg, f)
    ensures exists run :: Lost(cfg, run, f) && Calm(run)
  {
    hide Exec, Apply, Filtered, Alone, PromptRun, Lost;
    var run := ClaimReaches(cfg, f);
    OneStep(cfg, Exec(cfg, run), Done);
    var run1 := StepReaches(cfg, run, f, SendDebug, Done);
    var pc := At(Exec(cfg, run1), 0).pc;
    OneStep(cfg, Exec(cfg, run1), Failed(false));
    var run2 := StepReaches(cfg, run1, f, pc, Failed(false));
    RedeliveryLoses(cfg, run2, f);
    assert Calm(run2 + [Receive(0, Parsed(f))] + [Step(0, Done, NotDelivered)]);
  }

  /** The instance crashes between SETNX and its send. */
  lemma CrashLosesDebugFinding(cfg: Config, f: Finding)
    requires !cfg.byQuorum && !Filtered(cfg, f)
    ensures exists run :: Lost(cfg, run, f)
  {
    hide Exec, Apply, Filtered, Alone, PromptRun, Lost;
    var run := ClaimReaches(cfg, f);
    ExecOne(cfg, run, Crash(0));
    CrashFrees(cfg, Exec(cfg, run));
    AloneIsPrompt(cfg, run, Crash(0));
    RedeliveryLoses(cfg, run + [Crash(0)], f);
  }

  lemma CrashFrees(cfg: Config, c: Cluster)
    requires Alone(c)
    ensures var c' := Apply(cfg, c, Crash(0)); Alone(c') && At(c', 0).pc.Idle? && c'.store == c.store
  {
    hide LeaksAfterDrop;
    assert forall j | j != 0 :: At(Apply(cfg, c, Crash(0)), j) == At(c, j);
  }

  lemma NoTime(cfg: Config)
    ensures Exec(cfg, []) == INIT && Alone(INIT) && PromptRun(cfg, [])
  {
  }

  lemma AloneSendsNothing(c: Cluster)
    requires Alone(c)
    ensures c.debugSends == []
  {
  }
}
