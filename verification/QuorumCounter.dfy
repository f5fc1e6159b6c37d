/** The shared counter: its range, and that no count key is left without a lifetime. */
module QuorumCounter {
  import opened GoInts
  import opened Redis
  import opened QuorumModel
  import opened QuorumSteps
  import opened QuorumMutex

  // ----- the range of the counter -----

  /** Between its claim and its DECR a call has the counter, if it exists, above zero. */
  predicate MayRetract(pc: Pc) {
    pc.Send? || pc.Retract?
  }

  ghost predicate InRange(c: Cluster) {
    && (forall k | k in c.store.count :: -1 <= c.store.count[k].value <= INT64_MAX)
    && (forall i | MayRetract(At(c, i).pc) :: Number(c.store.count, At(c, i).finding.uniqueKey, c.store.now) >= 0)
    && (forall i | At(c, i).pc.Remember? :: 0 <= At(c, i).pc.n <= INT64_MAX)
  }

  lemma CounterFlow(cfg: Config, i: Instance, st: Store, l: Local, ok: bool, d: Delivery)
    requires !l.pc.Idle?
    ensures var l' := Proceed(cfg, i, st, l, ok, d);
            var k := l.finding.uniqueKey;
            && l'.finding == l.finding
            && (l'.pc.Remember? ==> l.pc.Increment? && Increments(st, k) && l'.pc.n == Number(st.count, k, st.now) + 1)
            && (l'.pc.Send? ==> l.pc.Claim? && Claimable(cfg, st, k))
            && (l'.pc.Retract? ==> l.pc.Send?)
  {
    hide CoolDownKey, AsUint64, Claimable, Increments, Exists, Number;
  }

  lemma StepKeepsRange(cfg: Config, c: Cluster, e: Label)
    requires cfg.quorumSize >= 1 && Exclusive(c) && InRange(c) && Runs(c, e)
    ensures InRange(Apply(cfg, c, e))
  {
    hide Apply, Proceed;
    var c', i := Apply(cfg, c, e), e.who;
    var k := At(c, i).finding.uniqueKey;
    StepLocals(cfg, c, e);
    CounterFlow(cfg, i, c.store, At(c, i), e.reply.Done?, e.delivery);
    ApplyCounts(cfg, c, e);
    ApplyStatuses(cfg, c, e);
    forall j | MayRetract(At(c', j).pc) ensures Number(c'.store.count, At(c', j).finding.uniqueKey, c'.store.now) >= 0 {
      assert Holding(At(c, i).pc) && Holds(c, j, k) ==> i == j;
    }
  }

  lemma OthersKeepRange(cfg: Config, c: Cluster, e: Label)
    requires InRange(c) && !Runs(c, e)
    ensures InRange(Apply(cfg, c, e))
  {
    hide Apply, CoolDownKey;
    var c' := Apply(cfg, c, e);
    ApplyCounts(cfg, c, e);
    ApplyStatuses(cfg, c, e);
    forall j
      ensures MayRetract(At(c', j).pc) || At(c', j).pc.Remember? ==>
                At(c', j).pc == At(c, j).pc && At(c', j).finding == At(c, j).finding
    {
      OtherLocals(cfg, c, e, j);
    }
  }

  lemma {:induction false} CountersInRange(cfg: Config, run: seq<Label>)
    requires PromptRun(cfg, run) && cfg.quorumSize >= 1
    ensures InRange(Exec(cfg, run))
  {
    hide Apply;
    if run != [] {
      var c, e := Exec(cfg, run[..|run| - 1]), run[|run| - 1];
      CountersInRange(cfg, run[..|run| - 1]);
      PromptRunsAreExclusive(cfg, run[..|run| - 1]);
      if Runs(c, e) {
        StepKeepsRange(cfg, c, e);
      } else {
        OthersKeepRange(cfg, c, e);
      }
    }
  }

  /**
   The counter is never below -1, so INCR never answers a negative number and its
   conversion to uint64 is exact, even where it expires during a send or a DEL fails.
   */
  lemma CounterLowerBound(cfg: Config, run: seq<Label>)
    requires PromptRun(cfg, run) && cfg.quorumSize >= 1
    ensures var c := Exec(cfg, run);
            && (forall k | k in c.store.count :: c.store.count[k].value >= -1)
            && (forall i | At(c, i).pc.Remember? :: AsUint64(At(c, i).pc.n) == At(c, i).pc.n)
  {
    CountersInRange(cfg, run);
    hide Exec, Apply, AsUint64;
    forall i | At(Exec(cfg, run), i).pc.Remember?
      ensures AsUint64(At(Exec(cfg, run), i).pc.n) == At(Exec(cfg, run), i).pc.n
    {
      Uint64Exact(At(Exec(cfg, run), i).pc.n);
    }
  }

  // ----- lifetimes of count keys -----

  /** The call that will give count key k a lifetime, or delete it. */
  predicate Tends(c: Cluster, i: Instance, k: string) {
    && At(c, i).finding.uniqueKey == k
    && (At(c, i).pc == Remember(1) || At(c, i).pc.SetCountTtl? || At(c, i).pc.DropCount?)
  }

  predicate Immortal(c: Cluster, k: string) {
    k in c.store.count && c.store.count[k].deadline.None?
  }

  ghost predicate Tended(c: Cluster, k: string) {
    Immortal(c, k) ==> exists i :: Tends(c, i, k)
  }

  predicate Counting(pc: Pc) {
    pc.Increment? || pc.SetCountTtl? || pc.Retract? || pc.DropCount?
  }

  /** No command on count key k fails, and no instance dies while it tends k. */
  predicate TendingWorks(c: Cluster, e: Label, k: string) {
    match e
    case Step(i, r, _) =>
      At(c, i).finding.uniqueKey == k && Counting(At(c, i).pc) ==> r.Done?
    case Crash(i) => !Tends(c, i, k)
    case _ => true
  }

  ghost predicate TendingRun(cfg: Config, run: seq<Label>, k: string) {
    run != [] ==>
      && TendingRun(cfg, run[..|run| - 1], k)
      && TendingWorks(Exec(cfg, run[..|run| - 1]), run[|run| - 1], k)
  }

  lemma TendFlow(cfg: Config, i: Instance, st: Store, l: Local, ok: bool, d: Delivery)
    requires !l.pc.Idle? && ok
    ensures var l' := Proceed(cfg, i, st, l, ok, d);
            var n := Number(st.count, l.finding.uniqueKey, st.now);
            && l'.finding == l.finding
            && (l.pc == Remember(1) ==> l'.pc.SetCountTtl?)
            && (l.pc.Increment? && Increments(st, l.finding.uniqueKey) ==> l'.pc == Remember(n + 1))
            && (l.pc.Retract? && n <= 0 ==> l'.pc.DropCount?)
  {
  }

  lemma StepTends(cfg: Config, c: Cluster, e: Label, k: string)
    requires Tended(c, k) && Runs(c, e) && TendingWorks(c, e, k) && Immortal(Apply(cfg, c, e), k)
    ensures exists i :: Tends(Apply(cfg, c, e), i, k)
  {
    var c', i := Apply(cfg, c, e), e.who;
    StepLocals(cfg, c, e);
    TendFlow(cfg, i, c.store, At(c, i), true, e.delivery);
    RememberIgnoresReply(cfg, i, c.store, At(c, i), e.reply.Done?, e.delivery);
    ApplyStore(cfg, c, e);
    hide Apply, Proceed, StatusAfter, DedupAfter;
    if Immortal(c, k) {
      var w :| Tends(c, w, k);
      assert Tends(c', w, k) || Tends(c', i, k);
    } else {
      assert Tends(c', i, k);
    }
  }

  lemma RememberIgnoresReply(cfg: Config, i: Instance, st: Store, l: Local, ok: bool, d: Delivery)
    requires !l.pc.Idle?
    ensures l.pc.Remember? ==> Proceed(cfg, i, st, l, ok, d) == Proceed(cfg, i, st, l, true, d)
  {
  }

  /**
   No immortal count keys: a key without a deadline is between the INCR and the
   EXPIRE, or the DECR and the DEL, of a call in progress.
   */
  lemma {:induction false} NoImmortalCounts(cfg: Config, run: seq<Label>, k: string)
    requires TendingRun(cfg, run, k)
    ensures Tended(Exec(cfg, run), k)
  {
    hide Apply;
    if run != [] {
      var c, e := Exec(cfg, run[..|run| - 1]), run[|run| - 1];
      NoImmortalCounts(cfg, run[..|run| - 1], k);
      if Immortal(Apply(cfg, c, e), k) {
        if Runs(c, e) {
          StepTends(cfg, c, e, k);
        } else {
          OthersTend(cfg, c, e, k);
        }
      }
    }
  }

  lemma OthersTend(cfg: Config, c: Cluster, e: Label, k: string)
    requires Tended(c, k) && !Runs(c, e) && TendingWorks(c, e, k) && Immortal(Apply(cfg, c, e), k)
    ensures exists i :: Tends(Apply(cfg, c, e), i, k)
  {
    hide Apply;
    ApplyCounts(cfg, c, e);
    assert Immortal(c, k);
    var w :| Tends(c, w, k);
    OnlyCrashesForget(cfg, c, e, w);
    assert Tends(Apply(cfg, c, e), w, k);
  }

  lemma OnlyCrashesForget(cfg: Config, c: Cluster, e: Label, i: Instance)
    requires !Runs(c, e) && !At(c, i).pc.Idle? && e != Crash(i)
    ensures At(Apply(cfg, c, e), i).pc == At(c, i).pc && At(Apply(cfg, c, e), i).finding == At(c, i).finding
  {
    hide Begin, LeaksAfterDrop;
  }

  // ----- lifetimes -----

  /** A key lasts this long at most, from now on. */
  predicate Within<V>(e: Entry<V>, now: nat, ttl: nat) {
    e.deadline.Some? && e.deadline.value <= now + ttl
  }

  /** Counters with a deadline last ten minutes at most, cool-downs thirty, deduplication keys fifteen. */
  ghost predicate Bounded(st: Store) {
    && (forall k | k in st.count :: st.count[k].deadline.None? || Within(st.count[k], st.now, MINS_10))
    && (forall cd | cd in st.coolDown :: Within(st.coolDown[cd], st.now, MINS_30))
    && (forall k | k in st.dedup :: Within(st.dedup[k], st.now, MINS_15))
  }

  /** In every run, whatever fails, no key keeps findings off for longer than the source means it to. */
  lemma {:induction false} LifetimesBounded(cfg: Config, run: seq<Label>)
    ensures Bounded(Exec(cfg, run).store)
  {
    hide Apply;
    if run != [] {
      LifetimesBounded(cfg, run[..|run| - 1]);
      ApplyStore(cfg, Exec(cfg, run[..|run| - 1]), run[|run| - 1]);
    }
  }
}
