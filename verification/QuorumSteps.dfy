/**
 What one label changes, table by table and instance by instance, so that the
 proofs about runs need not look into the handler again.
 */
module QuorumSteps {
  import opened Redis
  import opened QuorumModel

  lemma ExecOne(cfg: Config, run: seq<Label>, e: Label)
    ensures Exec(cfg, run + [e]) == Apply(cfg, Exec(cfg, run), e)
  {
    assert (run + [e])[..|run|] == run;
  }

  predicate Runs(c: Cluster, e: Label) {
    e.Step? && !At(c, e.who).pc.Idle?
  }

  /** The Redis tables after a label. */
  function StoreAfter(cfg: Config, c: Cluster, e: Label): Store {
    if Runs(c, e) && TakesEffect(e.reply) then Issue(cfg, e.who, c.store, At(c, e.who))
    else if e.Tick? then c.store.(now := c.store.now + e.ms)
    else c.store
  }

  lemma ApplyStore(cfg: Config, c: Cluster, e: Label)
    ensures Apply(cfg, c, e).store == StoreAfter(cfg, c, e)
  {
    hide Proceed, Issue, CreditAfter, LeaksAfter, LeaksAfterDrop, Begin;
  }

  /** How one label changes the status table. */
  function StatusesAfter(cfg: Config, c: Cluster, e: Label): Table<string, string> {
    if Runs(c, e) && TakesEffect(e.reply)
    then StatusAfter(cfg, c.store, At(c, e.who).pc, At(c, e.who).finding.uniqueKey)
    else c.store.status
  }

  lemma ApplyStatuses(cfg: Config, c: Cluster, e: Label)
    ensures Apply(cfg, c, e).store.status == StatusesAfter(cfg, c, e)
    ensures Apply(cfg, c, e).store.now == c.store.now + if e.Tick? then e.ms else 0
  {
    hide Proceed, StatusAfter, CountAfter, DedupAfter, CreditAfter, LeaksAfter;
  }

  /** How one label changes the counters. */
  lemma ApplyCounts(cfg: Config, c: Cluster, e: Label)
    ensures Apply(cfg, c, e).store.count ==
            if Runs(c, e) && TakesEffect(e.reply)
            then CountAfter(c.store, At(c, e.who).pc, At(c, e.who).finding.uniqueKey) else c.store.count
  {
    hide Apply, Proceed, StatusAfter, CountAfter, DedupAfter;
    ApplyStore(cfg, c, e);
  }

  lemma ApplyCoolDowns(cfg: Config, c: Cluster, e: Label)
    ensures Apply(cfg, c, e).store.coolDown ==
            if Runs(c, e) && TakesEffect(e.reply) && At(c, e.who).pc.SetCoolDown?
            then SetFor(c.store.coolDown, CoolDownKey(cfg, At(c, e.who).finding), "", c.store.now, MINS_30)
            else c.store.coolDown
  {
    hide Apply, Proceed, StatusAfter, CountAfter, DedupAfter;
    ApplyStore(cfg, c, e);
  }

  lemma StepLocals(cfg: Config, c: Cluster, e: Label)
    requires Runs(c, e)
    ensures var c' := Apply(cfg, c, e);
            && At(c', e.who) == Proceed(cfg, e.who, c.store, At(c, e.who), e.reply.Done?, e.delivery)
            && (forall j | j != e.who :: At(c', j) == At(c, j))
  {
    hide Proceed, Issue, CreditAfter, LeaksAfter;
  }

  /** Labels other than a handler step leave every call in progress alone, or end it. */
  lemma OtherLocals(cfg: Config, c: Cluster, e: Label, i: Instance)
    requires !Runs(c, e)
    ensures var l, l' := At(c, i), At(Apply(cfg, c, e), i);
            || l' == l
            || l' == FRESH
            || (l.pc.Idle? && e.Receive? && e.to == i && l' == Begin(cfg, l, c.store.now, e.msg))
            || (e.Evict? && e.owner == i && l' == l.(cache := l.cache - {e.key}))
  {
    hide Begin, LeaksAfterDrop;
  }

  lemma ApplySends(cfg: Config, c: Cluster, e: Label)
    ensures Apply(cfg, c, e).sends ==
            if Runs(c, e) && At(c, e.who).pc.Send? && e.delivery.Delivered?
            then c.sends + [RecordOf(cfg, c, e.who)] else c.sends
  {
    hide Proceed, Issue, CreditAfter, LeaksAfter, LeaksAfterDrop, Begin;
  }

  lemma ApplyCredit(cfg: Config, c: Cluster, e: Label, k: string)
    ensures var c' := Apply(cfg, c, e);
            Credit(c', k) ==
            if Runs(c, e) && At(c, e.who).finding.uniqueKey == k then CreditAfter(c, e.who, k, e.reply)
            else if e.Evict? && e.key == k && k in At(c, e.owner).cache then Credit(c, k) - {e.owner}
            else if e.Crash? then Credit(c, k) - {e.victim}
            else Credit(c, k)
    ensures var c' := Apply(cfg, c, e);
            Leaks(c', k) ==
            if Runs(c, e) && At(c, e.who).finding.uniqueKey == k then LeaksAfter(c, e.who, k, e.reply)
            else if e.Evict? && e.key == k && k in At(c, e.owner).cache then LeaksAfterDrop(c, e.owner, k)
            else if e.Crash? then LeaksAfterDrop(c, e.victim, k)
            else Leaks(c, k)
  {
    hide Proceed, Issue, CreditAfter, LeaksAfter, Begin;
  }

  // ----- one command -----

  predicate CountCommand(pc: Pc) {
    pc.Increment? || pc.SetCountTtl? || pc.ShortenCount? || pc.Retract? || pc.DropUnexpirable? || pc.DropCount?
  }

  predicate StatusCommand(pc: Pc) {
    pc.ShortenStatus? || pc.Claim? || pc.ReleaseStatus? || pc.MarkSent?
  }

  /** A command touches one table, and there only the key of the finding. */
  function Commanded(cfg: Config, i: Instance, st: Store, l: Local): Store {
    var k := l.finding.uniqueKey;
    if CountCommand(l.pc) then st.(count := CountAfter(st, l.pc, k))
    else if StatusCommand(l.pc) then st.(status := StatusAfter(cfg, st, l.pc, k))
    else if l.pc.SetCoolDown? then
      st.(coolDown := SetFor(st.coolDown, CoolDownKey(cfg, l.finding), "", st.now, MINS_30))
    else if Debugging(l.pc) then st.(dedup := DedupAfter(st, l.pc, (i, k)))
    else st
  }

  lemma IssuedIsCommanded(cfg: Config, i: Instance, st: Store, l: Local)
    ensures Issue(cfg, i, st, l) == Commanded(cfg, i, st, l)
  {
    hide CoolDownKey, ClaimScript;
  }

  /** A handler step in full: what Redis and the caller are afterwards. */
  lemma StepIsCommand(cfg: Config, c: Cluster, e: Label)
    requires Runs(c, e)
    ensures var c', l := Apply(cfg, c, e), At(c, e.who);
            && At(c', e.who) == Proceed(cfg, e.who, c.store, l, e.reply.Done?, e.delivery)
            && c'.store == if TakesEffect(e.reply) then Commanded(cfg, e.who, c.store, l) else c.store
  {
    hide Apply, Proceed, Issue, Commanded;
    StepLocals(cfg, c, e);
    ApplyStore(cfg, c, e);
    IssuedIsCommanded(cfg, e.who, c.store, At(c, e.who));
  }
}
