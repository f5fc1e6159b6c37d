/** The path without quorum: its deduplication key keeps an instance's sends of a finding apart. */
module QuorumDebug {
  import opened GoInts
  import opened Redis
  import opened QuorumModel
  import opened QuorumSteps

  /** The lifetime of the deduplication key, less the longest call. */
  const MINS_14 := MINS_15 - MIN_1

  predicate ClaimedDebug(pc: Pc) {
    pc.SendDebug? || pc.DropDedup?
  }

  /** The key was claimed by this call and lives for fifteen minutes from its start. */
  predicate Leased(c: Cluster, i: Instance) {
    var k := (i, At(c, i).finding.uniqueKey);
    && k in c.store.dedup && c.store.dedup[k].deadline.Some?
    && c.store.dedup[k].deadline.value >= At(c, i).start + MINS_15
  }

  predicate Passed(c: Cluster, r: Record) {
    c.store.now >= r.time + MINS_14
  }

  /** The key of this send still stands in the way of another one, or its time has passed. */
  predicate Kept(c: Cluster, r: Record) {
    var k := (r.instance, r.key);
    || Passed(c, r)
    || (k in c.store.dedup && c.store.dedup[k].deadline.Some? && c.store.dedup[k].deadline.value >= r.time + MINS_14)
  }

  ghost predicate DebugGuarded(c: Cluster) {
    && (forall i :: At(c, i).start <= c.store.now)
    && (forall i | At(c, i).pc.SendDebug? :: Leased(c, i))
    && (forall r | r in c.debugSends :: Kept(c, r))
    && (forall r | r in c.debugSends && ClaimedDebug(At(c, r.instance).pc)
                   && At(c, r.instance).finding.uniqueKey == r.key :: Passed(c, r))
    && (forall a, b | 0 <= a < b < |c.debugSends| && c.debugSends[a].instance == c.debugSends[b].instance
                      && c.debugSends[a].key == c.debugSends[b].key ::
          c.debugSends[b].time >= c.debugSends[a].time + MINS_14)
  }

  lemma ApplyDebug(cfg: Config, c: Cluster, e: Label)
    ensures Apply(cfg, c, e).debugSends ==
            if Runs(c, e) && At(c, e.who).pc.SendDebug? && e.delivery.Delivered?
            then c.debugSends + [RecordOf(cfg, c, e.who)] else c.debugSends
    ensures Apply(cfg, c, e).store.dedup ==
            if Runs(c, e) && TakesEffect(e.reply)
            then DedupAfter(c.store, At(c, e.who).pc, (e.who, At(c, e.who).finding.uniqueKey)) else c.store.dedup
  {
    hide Proceed, CountAfter, StatusAfter, DedupAfter, CreditAfter, LeaksAfter, LeaksAfterDrop, Begin, CoolDownKey;
  }

  lemma DebugFlow(cfg: Config, i: Instance, st: Store, l: Local, ok: bool, d: Delivery)
    requires !l.pc.Idle?
    ensures var l', k := Proceed(cfg, i, st, l, ok, d), (i, l.finding.uniqueKey);
            && l'.finding == l.finding && l'.start == l.start
            && (l'.pc.SendDebug? ==> l.pc.SetDedup? && ok && !Exists(st.dedup, k, st.now))
            && (l'.pc.DropDedup? ==> l.pc.SendDebug?)
            && (l.pc.SendDebug? && d.Delivered? ==> l'.pc.Idle?)
  {
    hide CoolDownKey, AsUint64, Claimable, Increments, Number;
  }

  lemma StepKeepsLeased(cfg: Config, c: Cluster, e: Label, j: Instance)
    requires DebugGuarded(c) && Runs(c, e) && At(Apply(cfg, c, e), j).pc.SendDebug?
    ensures Leased(Apply(cfg, c, e), j)
  {
    hide Apply, Proceed, CoolDownKey;
    StepLocals(cfg, c, e);
    DebugFlow(cfg, e.who, c.store, At(c, e.who), e.reply.Done?, e.delivery);
    ApplyStatuses(cfg, c, e);
    ApplyDebug(cfg, c, e);
    assert j != e.who ==> Leased(c, j);
  }

  lemma StepKeepsKept(cfg: Config, c: Cluster, e: Label, r: Record)
    requires DebugGuarded(c) && Prompt(c) && Runs(c, e) && r in Apply(cfg, c, e).debugSends
    ensures Kept(Apply(cfg, c, e), r)
  {
    hide Apply, Proceed, CoolDownKey;
    ApplyStatuses(cfg, c, e);
    ApplyDebug(cfg, c, e);
    assert r in c.debugSends ==> Kept(c, r);
    assert At(c, e.who).pc.SendDebug? ==> Leased(c, e.who);
  }

  lemma StepKeepsPassed(cfg: Config, c: Cluster, e: Label, r: Record)
    requires DebugGuarded(c) && Runs(c, e) && r in Apply(cfg, c, e).debugSends
    requires var l := At(Apply(cfg, c, e), r.instance); ClaimedDebug(l.pc) && l.finding.uniqueKey == r.key
    ensures Passed(Apply(cfg, c, e), r)
  {
    hide Apply, Proceed, CoolDownKey;
    StepLocals(cfg, c, e);
    DebugFlow(cfg, e.who, c.store, At(c, e.who), e.reply.Done?, e.delivery);
    ApplyStatuses(cfg, c, e);
    ApplyDebug(cfg, c, e);
    assert r in c.debugSends ==> Kept(c, r);
  }

  lemma StepKeepsDebugGuarded(cfg: Config, c: Cluster, e: Label)
    requires DebugGuarded(c) && Prompt(c) && Runs(c, e)
    ensures DebugGuarded(Apply(cfg, c, e))
  {
    hide Apply, Proceed, CoolDownKey, Leased, Kept;
    var c', i := Apply(cfg, c, e), e.who;
    StepLocals(cfg, c, e);
    DebugFlow(cfg, i, c.store, At(c, i), e.reply.Done?, e.delivery);
    ApplyStatuses(cfg, c, e);
    ApplyDebug(cfg, c, e);
    forall j | At(c', j).pc.SendDebug? ensures Leased(c', j) {
      StepKeepsLeased(cfg, c, e, j);
    }
    forall r | r in c'.debugSends ensures Kept(c', r) {
      StepKeepsKept(cfg, c, e, r);
    }
    forall r | r in c'.debugSends && ClaimedDebug(At(c', r.instance).pc)
               && At(c', r.instance).finding.uniqueKey == r.key
      ensures Passed(c', r)
    {
      StepKeepsPassed(cfg, c, e, r);
    }
  }

  lemma OthersKeepDebugGuarded(cfg: Config, c: Cluster, e: Label)
    requires DebugGuarded(c) && !Runs(c, e)
    ensures DebugGuarded(Apply(cfg, c, e))
  {
    hide Apply, CoolDownKey;
    var c' := Apply(cfg, c, e);
    ApplyStatuses(cfg, c, e);
    ApplyDebug(cfg, c, e);
    forall i
      ensures At(c', i).start <= c'.store.now
      ensures ClaimedDebug(At(c', i).pc) ==>
                && At(c', i).pc == At(c, i).pc && At(c', i).finding == At(c, i).finding
                && At(c', i).start == At(c, i).start
    {
      OtherLocals(cfg, c, e, i);
    }
    forall r | r in c'.debugSends ensures Kept(c', r) {
      assert Kept(c, r);
    }
  }

  lemma {:induction false} RunsGuardDebug(cfg: Config, run: seq<Label>)
    requires PromptRun(cfg, run)
    ensures DebugGuarded(Exec(cfg, run))
  {
    hide Apply, Prompt;
    if run != [] {
      var c, e := Exec(cfg, run[..|run| - 1]), run[|run| - 1];
      RunsGuardDebug(cfg, run[..|run| - 1]);
      if Runs(c, e) {
        StepKeepsDebugGuarded(cfg, c, e);
      } else {
        OthersKeepDebugGuarded(cfg, c, e);
      }
    }
  }

  /**
   In every run of calls under a minute, whatever commands fail and whoever crashes,
   an instance's accepted sends of one debug finding are fourteen minutes apart: the
   key's fifteen, less the call that claimed it.
   */
  lemma DebugAtMostOnce(cfg: Config, run: seq<Label>)
    requires PromptRun(cfg, run)
    ensures var sends := Exec(cfg, run).debugSends;
            forall a, b | 0 <= a < b < |sends| && sends[a].instance == sends[b].instance
                          && sends[a].key == sends[b].key ::
              sends[b].time >= sends[a].time + MINS_14
  {
    RunsGuardDebug(cfg, run);
    hide Exec;
  }
}
