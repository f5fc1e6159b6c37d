/**
 At most one successful send per thirty minutes. Two sends of a finding are kept
 apart by the lease on its status while the first one finishes, and by the
 cool-down afterwards; the check of the cool-down is not atomic with the claim,
 so the proof follows every call from its reading of the status on.
 */
module QuorumSends {
  import opened GoInts
  import opened Redis
  import opened QuorumModel
  import opened QuorumSteps
  import opened QuorumMutex

  // ----- what the theorem asks of a run -----

  /**
   The cool-down with this key is read and written without error, and no instance
   dies between a send that is to start it and doing so.
   */
  predicate CoolDownWorks(cfg: Config, c: Cluster, e: Label, cd: string) {
    match e
    case Step(i, r, _) =>
      CoolDownKey(cfg, At(c, i).finding) == cd ==>
        && (At(c, i).pc.ReadCoolDown? ==> r.Done?)
        && (At(c, i).pc.SetCoolDown? ==> TakesEffect(r))
    case Crash(i) => CoolDownKey(cfg, At(c, i).finding) == cd ==> !Bookkeeping(At(c, i).pc)
    case _ => true
  }

  ghost predicate CoolDownRun(cfg: Config, run: seq<Label>, cd: string) {
    run != [] ==>
      && CoolDownRun(cfg, run[..|run| - 1], cd)
      && CoolDownWorks(cfg, Exec(cfg, run[..|run| - 1]), run[|run| - 1], cd)
  }

  // ----- the invariant -----

  /** The cool-down of this send outlives the thirty minutes. */
  predicate Cooled(c: Cluster, r: Record) {
    && r.coolDownKey in c.store.coolDown
    && c.store.coolDown[r.coolDownKey].deadline.Some?
    && c.store.coolDown[r.coolDownKey].deadline.value >= r.time + MINS_30
  }

  predicate Concerns(cfg: Config, l: Local, r: Record) {
    l.finding.uniqueKey == r.key && CoolDownKey(cfg, l.finding) == r.coolDownKey
  }

  predicate Bookkeeping(pc: Pc) {
    pc.MarkSent? || pc.SetCoolDown?
  }

  predicate Pending(cfg: Config, c: Cluster, r: Record) {
    Bookkeeping(At(c, r.instance).pc) && Concerns(cfg, At(c, r.instance), r)
  }

  predicate Elapsed(c: Cluster, r: Record) {
    c.store.now >= r.time + MINS_30
  }

  /** A call that has read "not sent" but not claimed yet. */
  predicate Undecided(pc: Pc) {
    pc.ReadCoolDown? || pc.Claim?
  }

  /** If the status came back since call j read it, it outlasts the call. */
  predicate StatusOutlasts(c: Cluster, j: Instance) {
    var k := At(c, j).finding.uniqueKey;
    Exists(c.store.status, k, c.store.now) ==> Lease(c, j, k)
  }

  /** The status keeps call j from claiming, and nobody will delete it. */
  ghost predicate Fenced(c: Cluster, j: Instance) {
    var k := At(c, j).finding.uniqueKey;
    && Lease(c, j, k)
    && forall i | Holds(c, i, k) :: Bookkeeping(At(c, i).pc)
  }

  ghost predicate Guarded(c: Cluster, j: Instance, r: Record) {
    match At(c, j).pc
    case ReadCoolDown => Elapsed(c, r) || Cooled(c, r) || Fenced(c, j)
    case Claim => Elapsed(c, r) || Fenced(c, j)
    case Send => Elapsed(c, r)
    case _ => true
  }

  ghost predicate Calls(c: Cluster) {
    forall j | Undecided(At(c, j).pc) :: StatusOutlasts(c, j)
  }

  ghost predicate Past(cfg: Config, c: Cluster, cd: string) {
    forall r | r in c.sends && r.coolDownKey == cd :: r.time <= c.store.now && (Cooled(c, r) || Pending(cfg, c, r))
  }

  ghost predicate AllGuarded(cfg: Config, c: Cluster, cd: string) {
    forall j, r | r in c.sends && r.coolDownKey == cd && Concerns(cfg, At(c, j), r) :: Guarded(c, j, r)
  }

  /** Sends of one key with this cool-down key are thirty minutes apart. */
  ghost predicate Spaced(sends: seq<Record>, cd: string) {
    forall a, b | 0 <= a < b < |sends| && sends[a].key == sends[b].key
                  && sends[a].coolDownKey == sends[b].coolDownKey == cd ::
      sends[b].time >= sends[a].time + MINS_30
  }

  ghost predicate SendsGuarded(cfg: Config, c: Cluster, cd: string) {
    && Exclusive(c) && StatusesKnown(c)
    && Calls(c) && Past(cfg, c, cd) && AllGuarded(cfg, c, cd) && Spaced(c.sends, cd)
  }

  // ----- one handler step -----

  /** Which steps lead towards a send. */
  lemma SendFlow(cfg: Config, i: Instance, st: Store, l: Local, ok: bool, d: Delivery)
    requires !l.pc.Idle?
    ensures var l' := Proceed(cfg, i, st, l, ok, d);
            var k := l.finding.uniqueKey;
            && l'.finding == l.finding && l'.start == l.start
            && (l'.pc.ReadCoolDown? ==>
                  l.pc.ReadStatus? && (Exists(st.status, k, st.now) ==> st.status[k].value == NOT_SEND))
            && (l'.pc.Claim? ==>
                  l.pc.ReadCoolDown? && (ok ==> !Exists(st.coolDown, CoolDownKey(cfg, l.finding), st.now)))
            && (l'.pc.Send? ==> l.pc.Claim? && Claimable(cfg, st, k))
            && (l.pc.Send? && d.Delivered? <==> l'.pc.MarkSent?)
            && (l.pc.MarkSent? <==> l'.pc.SetCoolDown?)
  {
    hide CoolDownKey, AsUint64, Claimable, Increments, Exists, Number;
  }

  lemma StepKeepsCalls(cfg: Config, c: Cluster, e: Label, j: Instance)
    requires Exclusive(c) && StatusesKnown(c) && Calls(c) && Prompt(c) && Runs(c, e)
    requires Undecided(At(Apply(cfg, c, e), j).pc)
    ensures StatusOutlasts(Apply(cfg, c, e), j)
  {
    StepLocals(cfg, c, e);
    SendFlow(cfg, e.who, c.store, At(c, e.who), e.reply.Done?, e.delivery);
    ApplyStatuses(cfg, c, e);
    hide Apply, Proceed;
  }

  lemma StepKeepsPast(cfg: Config, c: Cluster, e: Label, r: Record)
    requires SendsGuarded(cfg, c, r.coolDownKey) && Runs(c, e) && CoolDownWorks(cfg, c, e, r.coolDownKey)
    requires r in Apply(cfg, c, e).sends
    ensures var c' := Apply(cfg, c, e); r.time <= c'.store.now && (Cooled(c', r) || Pending(cfg, c', r))
  {
    StepLocals(cfg, c, e);
    SendFlow(cfg, e.who, c.store, At(c, e.who), e.reply.Done?, e.delivery);
    ApplySends(cfg, c, e);
    ApplyStore(cfg, c, e);
    hide Apply, Proceed, StatusAfter, CountAfter, DedupAfter;
  }

  /** A fence holds against every other call. */
  lemma StepKeepsFence(cfg: Config, c: Cluster, e: Label, j: Instance)
    requires Exclusive(c) && StatusesKnown(c) && Calls(c) && Prompt(c) && Runs(c, e)
    requires Fenced(c, j) && !At(c, j).pc.Idle?
    requires At(Apply(cfg, c, e), j).finding == At(c, j).finding
    ensures Fenced(Apply(cfg, c, e), j)
  {
    hide Apply, Proceed, CoolDownKey;
    var k := At(c, j).finding.uniqueKey;
    var c' := Apply(cfg, c, e);
    StepLocals(cfg, c, e);
    SendFlow(cfg, e.who, c.store, At(c, e.who), e.reply.Done?, e.delivery);
    Flow(cfg, e.who, c.store, At(c, e.who), e.reply.Done?, e.delivery);
    ApplyStatuses(cfg, c, e);
    assert Holds(c, e.who, k) ==> Bookkeeping(At(c, e.who).pc);
    forall i | Holds(c', i, k) ensures Bookkeeping(At(c', i).pc) {
      assert Holds(c, i, k);
    }
  }

  lemma CooledStays(cfg: Config, c: Cluster, e: Label, r: Record)
    requires Cooled(c, r) && r.time <= c.store.now
    ensures Cooled(Apply(cfg, c, e), r)
  {
    ApplyStore(cfg, c, e);
    hide Apply, StatusAfter, CountAfter, DedupAfter;
  }

  /** The caller itself moves towards its send only past the cool-down of every earlier one. */
  lemma StepGuardsCaller(cfg: Config, c: Cluster, e: Label, r: Record)
    requires SendsGuarded(cfg, c, r.coolDownKey) && Prompt(c) && Runs(c, e) && CoolDownWorks(cfg, c, e, r.coolDownKey)
    requires r in c.sends && Concerns(cfg, At(Apply(cfg, c, e), e.who), r)
    ensures Guarded(Apply(cfg, c, e), e.who, r)
  {
    var i, c' := e.who, Apply(cfg, c, e);
    StepLocals(cfg, c, e);
    SendFlow(cfg, i, c.store, At(c, i), e.reply.Done?, e.delivery);
    ApplyStatuses(cfg, c, e);
    assert c'.store.now == c.store.now;
    if At(c', i).pc.ReadCoolDown? {
      if Pending(cfg, c, r) {
        HolderBlocksClaims(cfg, c, r.instance);
      }
      assert Cooled(c, r);
      CooledStays(cfg, c, e, r);
    } else if At(c', i).pc.Claim? {
      hide Apply, Proceed;
      assert Guarded(c, i, r);
      if Fenced(c, i) {
        StepKeepsFence(cfg, c, e, i);
      }
    } else if At(c', i).pc.Send? {
      hide Apply, Proceed;
      assert Guarded(c, i, r);
    }
  }

  lemma StepGuardsOthers(cfg: Config, c: Cluster, e: Label, j: Instance, r: Record)
    requires SendsGuarded(cfg, c, r.coolDownKey) && Prompt(c) && Runs(c, e) && j != e.who
    requires r in c.sends && Concerns(cfg, At(c, j), r)
    ensures Guarded(Apply(cfg, c, e), j, r)
  {
    StepLocals(cfg, c, e);
    ApplyStatuses(cfg, c, e);
    hide Apply, Proceed;
    assert Guarded(c, j, r);
    if Cooled(c, r) {
      CooledStays(cfg, c, e, r);
    }
    if Fenced(c, j) && !At(c, j).pc.Idle? {
      StepKeepsFence(cfg, c, e, j);
    }
  }

  /** A new send fences every call on its key that has not claimed yet; none has. */
  lemma SendFencesOthers(cfg: Config, c: Cluster, e: Label, j: Instance)
    requires Exclusive(c) && StatusesKnown(c) && Calls(c) && Prompt(c) && Runs(c, e) && j != e.who
    requires At(c, e.who).pc.Send? && e.delivery.Delivered?
    requires Concerns(cfg, At(c, j), RecordOf(cfg, c, e.who))
    ensures Guarded(Apply(cfg, c, e), j, RecordOf(cfg, c, e.who))
  {
    var c', k := Apply(cfg, c, e), At(c, j).finding.uniqueKey;
    StepLocals(cfg, c, e);
    SendFlow(cfg, e.who, c.store, At(c, e.who), e.reply.Done?, e.delivery);
    ApplyStatuses(cfg, c, e);
    HolderBlocksClaims(cfg, c, e.who);
    hide Apply, Proceed;
    assert Holds(c, e.who, k);
    if Undecided(At(c, j).pc) {
      assert StatusOutlasts(c, j);
      forall i | Holds(c', i, k) ensures Bookkeeping(At(c', i).pc) {
        assert i != e.who ==> Holds(c, i, k);
      }
      assert Fenced(c', j);
    }
  }

  lemma StepKeepsGuards(cfg: Config, c: Cluster, e: Label, j: Instance, r: Record)
    requires SendsGuarded(cfg, c, r.coolDownKey) && Prompt(c) && Runs(c, e) && CoolDownWorks(cfg, c, e, r.coolDownKey)
    requires r in Apply(cfg, c, e).sends && Concerns(cfg, At(Apply(cfg, c, e), j), r)
    ensures Guarded(Apply(cfg, c, e), j, r)
  {
    StepLocals(cfg, c, e);
    ApplySends(cfg, c, e);
    SendFlow(cfg, e.who, c.store, At(c, e.who), e.reply.Done?, e.delivery);
    hide Apply, Proceed, Guarded;
    if r in c.sends {
      if j == e.who {
        StepGuardsCaller(cfg, c, e, r);
      } else {
        StepGuardsOthers(cfg, c, e, j, r);
      }
    } else if j != e.who {
      SendFencesOthers(cfg, c, e, j);
    } else {
      GuardedWhenBookkeeping(Apply(cfg, c, e), j, r);
    }
  }

  lemma GuardedWhenBookkeeping(c: Cluster, j: Instance, r: Record)
    requires At(c, j).pc.MarkSent?
    ensures Guarded(c, j, r)
  {
  }

  lemma StepKeepsSpacing(cfg: Config, c: Cluster, e: Label, cd: string)
    requires SendsGuarded(cfg, c, cd) && Runs(c, e)
    ensures Spaced(Apply(cfg, c, e).sends, cd)
  {
    ApplySends(cfg, c, e);
    hide Apply;
    var i := e.who;
    if At(c, i).pc.Send? {
      forall a | 0 <= a < |c.sends| && c.sends[a].coolDownKey == cd && Concerns(cfg, At(c, i), c.sends[a])
        ensures Elapsed(c, c.sends[a])
      {
        assert Guarded(c, i, c.sends[a]);
      }
    }
  }

  lemma StepKeepsSendsGuarded(cfg: Config, c: Cluster, e: Label, cd: string)
    requires SendsGuarded(cfg, c, cd) && Prompt(c) && Runs(c, e) && CoolDownWorks(cfg, c, e, cd)
    ensures SendsGuarded(cfg, Apply(cfg, c, e), cd)
  {
    var c' := Apply(cfg, c, e);
    StepKeepsExclusive(cfg, c, e);
    ApplyKeepsStatusesKnown(cfg, c, e);
    StepKeepsSpacing(cfg, c, e, cd);
    hide Apply, Exclusive, Guarded, Spaced, StatusesKnown;
    forall j | Undecided(At(c', j).pc) ensures StatusOutlasts(c', j) {
      StepKeepsCalls(cfg, c, e, j);
    }
    forall r | r in c'.sends && r.coolDownKey == cd
      ensures r.time <= c'.store.now && (Cooled(c', r) || Pending(cfg, c', r))
    {
      StepKeepsPast(cfg, c, e, r);
    }
    forall j, r | r in c'.sends && r.coolDownKey == cd && Concerns(cfg, At(c', j), r) ensures Guarded(c', j, r) {
      StepKeepsGuards(cfg, c, e, j, r);
    }
  }

  // ----- the other labels -----

  /** They bring no call closer to its claim, and end none that is between its send and its cool-down. */
  lemma OthersStart(cfg: Config, c: Cluster, e: Label, i: Instance)
    requires !Runs(c, e)
    ensures var l, l' := At(c, i), At(Apply(cfg, c, e), i);
            || (l'.pc == l.pc && l'.finding == l.finding && l'.start == l.start)
            || l'.pc.Idle? || l'.pc.Lookup? || l'.pc.SetDedup?
    ensures e != Crash(i) && !At(c, i).pc.Idle? ==>
              At(Apply(cfg, c, e), i).pc == At(c, i).pc && At(Apply(cfg, c, e), i).finding == At(c, i).finding
  {
    OtherLocals(cfg, c, e, i);
    assert e.Crash? ==> forall j | j != e.victim :: At(Apply(cfg, c, e), j) == At(c, j);
  }

  lemma OthersKeepSendsGuarded(cfg: Config, c: Cluster, e: Label, cd: string)
    requires SendsGuarded(cfg, c, cd) && Prompt(c) && !Runs(c, e) && CoolDownWorks(cfg, c, e, cd)
    ensures SendsGuarded(cfg, Apply(cfg, c, e), cd)
  {
    hide Apply, Exclusive, Guarded, Spaced, StatusesKnown, CoolDownKey;
    var c' := Apply(cfg, c, e);
    OthersKeepExclusive(cfg, c, e);
    ApplyKeepsStatusesKnown(cfg, c, e);
    ApplyStatuses(cfg, c, e);
    ApplyCoolDowns(cfg, c, e);
    ApplySends(cfg, c, e);
    forall j | Undecided(At(c', j).pc) ensures StatusOutlasts(c', j) {
      OthersStart(cfg, c, e, j);
      assert StatusOutlasts(c, j);
    }
    forall r | r in c'.sends && r.coolDownKey == cd
      ensures r.time <= c'.store.now && (Cooled(c', r) || Pending(cfg, c', r))
    {
      OthersStart(cfg, c, e, r.instance);
    }
    forall j, r | r in c'.sends && r.coolDownKey == cd && Concerns(cfg, At(c', j), r) ensures Guarded(c', j, r) {
      OthersKeepGuards(cfg, c, e, j, r);
    }
  }

  lemma OthersKeepGuards(cfg: Config, c: Cluster, e: Label, j: Instance, r: Record)
    requires SendsGuarded(cfg, c, r.coolDownKey) && !Runs(c, e)
    requires r in Apply(cfg, c, e).sends && Concerns(cfg, At(Apply(cfg, c, e), j), r)
    ensures Guarded(Apply(cfg, c, e), j, r)
  {
    hide Apply, Begin;
    var c', k := Apply(cfg, c, e), At(c, j).finding.uniqueKey;
    ApplyStatuses(cfg, c, e);
    ApplyCoolDowns(cfg, c, e);
    ApplySends(cfg, c, e);
    OthersStart(cfg, c, e, j);
    if Undecided(At(c', j).pc) || At(c', j).pc.Send? {
      assert Guarded(c, j, r);
      forall i | Holds(c', i, k) ensures Holds(c, i, k) && At(c, i).pc == At(c', i).pc {
        OthersStart(cfg, c, e, i);
      }
    }
  }

  // ----- every run -----

  lemma {:induction false} RunsGuardSends(cfg: Config, run: seq<Label>, cd: string)
    requires PromptRun(cfg, run) && CoolDownRun(cfg, run, cd)
    ensures SendsGuarded(cfg, Exec(cfg, run), cd)
  {
    hide Apply, SendsGuarded, Prompt, CoolDownWorks;
    if run == [] {
      InitGuardsSends(cfg, cd);
    } else {
      var c, e := Exec(cfg, run[..|run| - 1]), run[|run| - 1];
      RunsGuardSends(cfg, run[..|run| - 1], cd);
      if Runs(c, e) {
        StepKeepsSendsGuarded(cfg, c, e, cd);
      } else {
        OthersKeepSendsGuarded(cfg, c, e, cd);
      }
    }
  }

  lemma InitGuardsSends(cfg: Config, cd: string)
    ensures SendsGuarded(cfg, INIT, cd)
  {
  }

  /**
   Two accepted sends of one finding are at least thirty minutes apart, in every
   run over any number of instances whose calls take less than a minute.
   */
  lemma TimedAtMostOnce(cfg: Config, run: seq<Label>, cd: string)
    requires PromptRun(cfg, run) && CoolDownRun(cfg, run, cd)
    ensures var sends := Exec(cfg, run).sends;
            forall a, b | 0 <= a < b < |sends| && sends[a].key == sends[b].key
                          && sends[a].coolDownKey == sends[b].coolDownKey == cd ::
              sends[b].time >= sends[a].time + MINS_30
  {
    RunsGuardSends(cfg, run, cd);
    hide Exec;
  }
}
