/**
 What a stored status may be, how long it lives, and mutual exclusion: from a
 successful claim to the end of its bookkeeping a handler is alone on its key.
 */
module QuorumMutex {
  import opened GoInts
  import opened Redis
  import opened QuorumModel
  import opened QuorumSteps

  // ----- stored statuses -----

  ghost predicate StatusesKnown(c: Cluster) {
    forall k | k in c.store.status :: c.store.status[k].value in {SENDING, SENT}
  }

  /** Every status key has a deadline, at most twelve minutes away. */
  ghost predicate StatusesExpire(c: Cluster) {
    forall k | k in c.store.status ::
      c.store.status[k].deadline.Some? && c.store.status[k].deadline.value <= c.store.now + MINS_12
  }

  lemma ApplyKeepsStatusesKnown(cfg: Config, c: Cluster, e: Label)
    requires StatusesKnown(c)
    ensures StatusesKnown(Apply(cfg, c, e))
  {
    ApplyStatuses(cfg, c, e);
    hide Apply;
  }

  /** In every run the handler's three status branches are exhaustive, and no status key is immortal. */
  lemma {:induction false} StoredStatuses(cfg: Config, run: seq<Label>)
    ensures StatusesKnown(Exec(cfg, run)) && StatusesExpire(Exec(cfg, run))
  {
    hide Apply;
    if run != [] {
      StoredStatuses(cfg, run[..|run| - 1]);
      ApplyStatuses(cfg, Exec(cfg, run[..|run| - 1]), run[|run| - 1]);
    }
  }

  // ----- mutual exclusion -----

  /** From the claim to the release of the status, or to the end of a successful send's bookkeeping. */
  predicate Holding(pc: Pc) {
    pc.Send? || pc.Retract? || pc.DropCount? || pc.ReleaseStatus? || pc.MarkSent? || pc.SetCoolDown?
  }

  predicate Holds(c: Cluster, i: Instance, k: string) {
    Holding(At(c, i).pc) && At(c, i).finding.uniqueKey == k
  }

  /** The status of k outlasts any call of i that takes less than a minute. */
  predicate Lease(c: Cluster, i: Instance, k: string) {
    && k in c.store.status && c.store.status[k].deadline.Some?
    && c.store.status[k].deadline.value >= At(c, i).start + MIN_1
  }

  ghost predicate Exclusive(c: Cluster) {
    && (forall i :: At(c, i).start <= c.store.now)
    && (forall i | Holding(At(c, i).pc) :: Lease(c, i, At(c, i).finding.uniqueKey))
    && (forall i, j | Holding(At(c, i).pc) && Holds(c, j, At(c, i).finding.uniqueKey) :: i == j)
  }

  lemma HolderBlocksClaims(cfg: Config, c: Cluster, i: Instance)
    requires Exclusive(c) && StatusesKnown(c) && Prompt(c) && Holding(At(c, i).pc)
    ensures Exists(c.store.status, At(c, i).finding.uniqueKey, c.store.now)
    ensures !Claimable(cfg, c.store, At(c, i).finding.uniqueKey)
  {
    assert Lease(c, i, At(c, i).finding.uniqueKey);
  }

  /** How a handler step enters and leaves the critical section. */
  lemma Flow(cfg: Config, i: Instance, st: Store, l: Local, ok: bool, d: Delivery)
    requires !l.pc.Idle?
    ensures var l' := Proceed(cfg, i, st, l, ok, d);
            && l'.finding == l.finding && l'.start == l.start
            && (Holding(l'.pc) <==>
                || (Holding(l.pc) && !l.pc.ReleaseStatus? && !l.pc.SetCoolDown?)
                || (l.pc.Claim? && ok && Claimable(cfg, st, l.finding.uniqueKey)))
  {
    hide CoolDownKey, AsUint64, Claimable, Increments, Exists, Number;
  }

  lemma StepKeepsLease(cfg: Config, c: Cluster, e: Label, j: Instance)
    requires Exclusive(c) && StatusesKnown(c) && Prompt(c) && Runs(c, e)
    requires Holding(At(Apply(cfg, c, e), j).pc)
    ensures Lease(Apply(cfg, c, e), j, At(c, j).finding.uniqueKey)
  {
    StepLocals(cfg, c, e);
    Flow(cfg, e.who, c.store, At(c, e.who), e.reply.Done?, e.delivery);
    ApplyStatuses(cfg, c, e);
    hide Proceed, Apply;
    var k := At(c, j).finding.uniqueKey;
    assert j != e.who ==> At(c, j).pc == At(Apply(cfg, c, e), j).pc;
    if Holding(At(c, j).pc) {
      HolderBlocksClaims(cfg, c, j);
      assert Holds(c, j, k) && Lease(c, j, k);
      assert Holding(At(c, e.who).pc) && At(c, e.who).finding.uniqueKey == k ==> e.who == j;
    }
  }

  lemma StepKeepsOneHolder(cfg: Config, c: Cluster, e: Label, j: Instance)
    requires Exclusive(c) && StatusesKnown(c) && Prompt(c) && Runs(c, e)
    requires Holding(At(Apply(cfg, c, e), e.who).pc)
    requires Holds(Apply(cfg, c, e), j, At(c, e.who).finding.uniqueKey)
    ensures e.who == j
  {
    StepLocals(cfg, c, e);
    Flow(cfg, e.who, c.store, At(c, e.who), e.reply.Done?, e.delivery);
    hide Apply, Proceed;
    assert j == e.who || Holds(c, j, At(c, e.who).finding.uniqueKey);
    if j != e.who {
      HolderBlocksClaims(cfg, c, j);
    }
  }

  lemma StepKeepsExclusive(cfg: Config, c: Cluster, e: Label)
    requires Exclusive(c) && StatusesKnown(c) && Prompt(c) && Runs(c, e)
    ensures Exclusive(Apply(cfg, c, e))
  {
    var c' := Apply(cfg, c, e);
    StepLocals(cfg, c, e);
    Flow(cfg, e.who, c.store, At(c, e.who), e.reply.Done?, e.delivery);
    ApplyStatuses(cfg, c, e);
    hide Apply, Proceed;
    forall j | Holding(At(c', j).pc) ensures Lease(c', j, At(c', j).finding.uniqueKey) {
      StepKeepsLease(cfg, c, e, j);
    }
    forall j, m | Holding(At(c', j).pc) && Holds(c', m, At(c', j).finding.uniqueKey) ensures j == m {
      if j == e.who {
        StepKeepsOneHolder(cfg, c, e, m);
      } else if m == e.who {
        StepKeepsOneHolder(cfg, c, e, j);
      } else {
        assert Holds(c, m, At(c, j).finding.uniqueKey);
      }
    }
  }

  lemma OthersKeepExclusive(cfg: Config, c: Cluster, e: Label)
    requires Exclusive(c) && !Runs(c, e)
    ensures Exclusive(Apply(cfg, c, e))
  {
    var c' := Apply(cfg, c, e);
    hide Apply;
    ApplyStatuses(cfg, c, e);
    forall i
      ensures At(c', i).start <= c'.store.now
      ensures Holding(At(c', i).pc) ==> At(c', i).(cache := {}) == At(c, i).(cache := {})
    {
      OtherLocals(cfg, c, e, i);
    }
    forall i | Holding(At(c', i).pc) ensures Lease(c', i, At(c', i).finding.uniqueKey) {
      assert Lease(c, i, At(c, i).finding.uniqueKey);
    }
    forall i, j | Holding(At(c', i).pc) && Holds(c', j, At(c', i).finding.uniqueKey) ensures i == j {
      assert Holding(At(c, i).pc) && Holds(c, j, At(c, i).finding.uniqueKey);
    }
  }

  lemma {:induction false} PromptRunsAreExclusive(cfg: Config, run: seq<Label>)
    requires PromptRun(cfg, run)
    ensures Exclusive(Exec(cfg, run))
  {
    hide Apply;
    if run != [] {
      PromptRunsAreExclusive(cfg, run[..|run| - 1]);
      StoredStatuses(cfg, run[..|run| - 1]);
      var c, e := Exec(cfg, run[..|run| - 1]), run[|run| - 1];
      if Runs(c, e) {
        StepKeepsExclusive(cfg, c, e);
      } else {
        OthersKeepExclusive(cfg, c, e);
      }
    }
  }

  /**
   Mutual exclusion over every run of calls shorter than a minute, whatever
   commands fail, keys expire, entries are evicted and instances crash.
   */
  lemma MutualExclusion(cfg: Config, run: seq<Label>)
    requires PromptRun(cfg, run)
    ensures var c := Exec(cfg, run);
            && (forall i, j, k | Holds(c, i, k) && Holds(c, j, k) :: i == j)
            && (forall i, k | Holds(c, i, k) :: Exists(c.store.status, k, c.store.now))
  {
    PromptRunsAreExclusive(cfg, run);
    StoredStatuses(cfg, run);
    hide Exec;
    forall i, k | Holds(Exec(cfg, run), i, k) ensures Exists(Exec(cfg, run).store.status, k, Exec(cfg, run).store.now) {
      HolderBlocksClaims(cfg, Exec(cfg, run), i);
    }
  }
}
