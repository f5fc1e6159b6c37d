/**
 Quorum soundness by credit accounting: the shared counter never exceeds the
 number of distinct instances whose increment it still holds, plus the leaks.
 */
module QuorumCredits {
  import opened GoInts
  import opened Redis
  import opened QuorumModel
  import opened QuorumSteps

  /** The instance remembers its increment, or is about to. */
  predicate Remembers(c: Cluster, i: Instance, k: string) {
    k in At(c, i).cache || (At(c, i).pc.Remember? && At(c, i).finding.uniqueKey == k)
  }

  ghost predicate Accounted(c: Cluster) {
    && (forall i, k | i in Credit(c, k) :: Remembers(c, i, k))
    && (forall i | At(c, i).pc.Increment? :: At(c, i).finding.uniqueKey !in At(c, i).cache)
    && (forall k | Exists(c.store.count, k, c.store.now) ::
          c.store.count[k].value <= |Credit(c, k)| + Leaks(c, k))
  }

  /** How a handler step changes the caller's cache and its own memory of the increment. */
  lemma CacheFlow(cfg: Config, i: Instance, st: Store, l: Local, ok: bool, d: Delivery)
    requires !l.pc.Idle?
    ensures var l' := Proceed(cfg, i, st, l, ok, d);
            var k := l.finding.uniqueKey;
            && l'.finding == l.finding
            && l'.cache == (if Forgets(l.pc) then l.cache - {k}
                            else if l.pc.Touch? || l.pc.Remember? then l.cache + {k} else l.cache)
            && (l'.pc.Remember? <==> l.pc.Increment? && ok && Increments(st, k))
            && (l'.pc.Increment? ==> l.pc.Lookup? && k !in l.cache)
  {
    hide CoolDownKey, AsUint64, Claimable, Increments, Exists, Number;
  }

  lemma StepKeepsAccounted(cfg: Config, c: Cluster, e: Label)
    requires Accounted(c) && Runs(c, e)
    ensures Accounted(Apply(cfg, c, e))
  {
    var c', i := Apply(cfg, c, e), e.who;
    var k := At(c, i).finding.uniqueKey;
    StepLocals(cfg, c, e);
    CacheFlow(cfg, i, c.store, At(c, i), e.reply.Done?, e.delivery);
    ApplyStore(cfg, c, e);
    hide Apply, Proceed, StatusAfter, DedupAfter;
    forall j, m | j in Credit(c', m) ensures Remembers(c', j, m) {
      ApplyCredit(cfg, c, e, m);
      assert j in Credit(c, m) ==> Remembers(c, j, m);
    }
    forall m | Exists(c'.store.count, m, c'.store.now)
      ensures c'.store.count[m].value <= |Credit(c', m)| + Leaks(c', m)
    {
      ApplyCredit(cfg, c, e, m);
      if m == k {
        StepKeepsBound(cfg, c, e);
      }
    }
  }

  lemma StepKeepsBound(cfg: Config, c: Cluster, e: Label)
    requires Accounted(c) && Runs(c, e)
    ensures var i, k, now := e.who, At(c, e.who).finding.uniqueKey, c.store.now;
            var count := StoreAfter(cfg, c, e).count;
            Exists(count, k, now) ==> count[k].value <= |CreditAfter(c, i, k, e.reply)| + LeaksAfter(c, i, k, e.reply)
  {
    hide Apply, Proceed, StatusAfter, DedupAfter, Credit, Leaks, CountAfter;
    var i, k := e.who, At(c, e.who).finding.uniqueKey;
    assert At(c, i).pc.Increment? ==> i !in Credit(c, k) by {
      assert i in Credit(c, k) ==> Remembers(c, i, k);
    }
    CountFlow(c.store, At(c, i).pc, k);
    Cardinalities(Credit(c, k), i);
  }

  /** What a command can do to the counter of its key. */
  lemma CountFlow(st: Store, pc: Pc, k: string)
    ensures var count := CountAfter(st, pc, k);
            Exists(count, k, st.now) ==>
              if pc.Increment? && Increments(st, k) then count[k].value == Number(st.count, k, st.now) + 1
              else if pc.Retract? then count[k].value == Number(st.count, k, st.now) - 1
              else Exists(st.count, k, st.now) && count[k].value == st.count[k].value
  {
  }

  lemma Cardinalities(s: set<Instance>, i: Instance)
    ensures |s + {i}| == if i in s then |s| else |s| + 1
    ensures |s - {i}| == if i in s then |s| - 1 else |s|
    ensures |{} + {i}| == 1 && |{} - {i}| == 0
  {
    assert i in s ==> s + {i} == s;
    assert i !in s ==> s - {i} == s;
    assert {} - {i} == {};
  }

  lemma OthersKeepAccounted(cfg: Config, c: Cluster, e: Label)
    requires Accounted(c) && !Runs(c, e)
    ensures Accounted(Apply(cfg, c, e))
  {
    var c' := Apply(cfg, c, e);
    ApplyStore(cfg, c, e);
    forall j | At(c', j).pc.Increment?
      ensures At(c, j).pc.Increment? && At(c', j).finding == At(c, j).finding && At(c', j).cache <= At(c, j).cache
    {
      OtherLocals(cfg, c, e, j);
    }
    forall j, m | j in Credit(c', m) ensures Remembers(c', j, m) {
      ApplyCredit(cfg, c, e, m);
      assert Remembers(c, j, m);
      OtherLocals(cfg, c, e, j);
    }
    hide Apply;
    forall m | Exists(c'.store.count, m, c'.store.now)
      ensures c'.store.count[m].value <= |Credit(c', m)| + Leaks(c', m)
    {
      ApplyCredit(cfg, c, e, m);
    }
  }

  /** Credit accounting holds in every run: any failures, expiries, evictions and crashes. */
  lemma {:induction false} CreditAccounting(cfg: Config, run: seq<Label>)
    ensures Accounted(Exec(cfg, run))
  {
    hide Apply;
    if run != [] {
      var c, e := Exec(cfg, run[..|run| - 1]), run[|run| - 1];
      CreditAccounting(cfg, run[..|run| - 1]);
      if Runs(c, e) {
        StepKeepsAccounted(cfg, c, e);
      } else {
        OthersKeepAccounted(cfg, c, e);
      }
    }
  }

  // ----- credits and the history of the run -----

  /** Label m of the run is an INCR of key k by instance i that Redis answered. */
  predicate Counts(cfg: Config, run: seq<Label>, m: nat, i: Instance, k: string)
    requires m < |run|
  {
    var c := Exec(cfg, run[..m]);
    && Runs(c, run[m]) && run[m].who == i && run[m].reply.Done?
    && At(c, i).pc.Increment? && At(c, i).finding.uniqueKey == k && Increments(c.store, k)
  }

  /** The count key exists in every state after label m. */
  ghost predicate LivesSince(cfg: Config, run: seq<Label>, m: nat, k: string) {
    forall x {:trigger run[..x]} | m < x <= |run| ::
      Exists(Exec(cfg, run[..x]).store.count, k, Exec(cfg, run[..x]).store.now)
  }

  /** The label takes an increment of i on k back. */
  predicate TakesBack(c: Cluster, e: Label, i: Instance, k: string) {
    Runs(c, e) && e.who == i && At(c, i).finding.uniqueKey == k && At(c, i).pc.Retract? && TakesEffect(e.reply)
  }

  /** Instance i has not taken its increment of k back after label m. */
  ghost predicate StandsSince(cfg: Config, run: seq<Label>, m: nat, i: Instance, k: string) {
    forall x | m < x < |run| :: !TakesBack(Exec(cfg, run[..x]), run[x], i, k)
  }

  /**
   The finding with this key was counted by instance i in the incarnation of the
   counter that is still alive, and i has not taken that back.
   */
  ghost predicate CountedBy(cfg: Config, run: seq<Label>, i: Instance, k: string) {
    exists m :: 0 <= m < |run|
      && Counts(cfg, run, m, i, k) && LivesSince(cfg, run, m, k) && StandsSince(cfg, run, m, i, k)
  }

  lemma CreditStep(cfg: Config, c: Cluster, e: Label, i: Instance, k: string)
    requires i in Credit(Apply(cfg, c, e), k)
    requires Exists(Apply(cfg, c, e).store.count, k, Apply(cfg, c, e).store.now)
    ensures || (i in Credit(c, k) && Exists(c.store.count, k, c.store.now) && !TakesBack(c, e, i, k))
            || (Runs(c, e) && e.who == i && e.reply.Done? && At(c, i).pc.Increment?
                && At(c, i).finding.uniqueKey == k && Increments(c.store, k))
  {
    hide Apply, Proceed, StatusAfter;
    ApplyCredit(cfg, c, e, k);
    ApplyCounts(cfg, c, e);
    ApplyStatuses(cfg, c, e);
  }

  /** A count stays one as long as the counter lives on and nobody takes it back. */
  lemma CountLivesOn(cfg: Config, run: seq<Label>, n: nat, i: Instance, k: string)
    requires n + 1 == |run| && CountedBy(cfg, run[..n], i, k)
    requires Exists(Exec(cfg, run).store.count, k, Exec(cfg, run).store.now)
    requires !TakesBack(Exec(cfg, run[..n]), run[n], i, k)
    ensures CountedBy(cfg, run, i, k)
  {
    hide Apply, Exec, TakesBack;
    var before := run[..n];
    var m :| 0 <= m < n
      && Counts(cfg, before, m, i, k) && LivesSince(cfg, before, m, k) && StandsSince(cfg, before, m, i, k);
    assert before[..m] == run[..m];
    assert Counts(cfg, run, m, i, k);
    forall x {:trigger run[..x]} | m < x <= |run|
      ensures Exists(Exec(cfg, run[..x]).store.count, k, Exec(cfg, run[..x]).store.now)
    {
      if x <= n {
        assert before[..x] == run[..x];
      } else {
        assert run[..x] == run;
      }
    }
    forall x | m < x < |run| ensures !TakesBack(Exec(cfg, run[..x]), run[x], i, k) {
      if x < n {
        assert before[..x] == run[..x] && before[x] == run[x];
      }
    }
    assert LivesSince(cfg, run, m, k) && StandsSince(cfg, run, m, i, k);
  }

  lemma {:induction false} CreditsAreCounts(cfg: Config, run: seq<Label>, i: Instance, k: string)
    requires i in Credit(Exec(cfg, run), k)
    requires Exists(Exec(cfg, run).store.count, k, Exec(cfg, run).store.now)
    ensures CountedBy(cfg, run, i, k)
  {
    hide Apply, TakesBack;
    if run == [] {
      assert false;
    }
    var n := |run| - 1;
    var c, e := Exec(cfg, run[..n]), run[n];
    CreditStep(cfg, c, e, i, k);
    assert run[..n + 1] == run;
    if i in Credit(c, k) && Exists(c.store.count, k, c.store.now) && !TakesBack(c, e, i, k) {
      CreditsAreCounts(cfg, run[..n], i, k);
      CountLivesOn(cfg, run, n, i, k);
    } else {
      assert Counts(cfg, run, n, i, k);
      assert LivesSince(cfg, run, n, k) && StandsSince(cfg, run, n, i, k);
    }
  }

  /** The label is a claim of key k that succeeds. */
  predicate Claims(cfg: Config, c: Cluster, e: Label, k: string) {
    Runs(c, e) && At(c, e.who).pc.Claim? && At(c, e.who).finding.uniqueKey == k && At(Apply(cfg, c, e), e.who).pc.Send?
  }

  /** A successful claim rests on quorumSize different instances that counted the finding, less the leaks. */
  lemma QuorumSoundness(cfg: Config, run: seq<Label>)
    ensures var c := Exec(cfg, run);
            forall e, k | Claims(cfg, c, e, k) ::
              && |Credit(c, k)| + Leaks(c, k) >= cfg.quorumSize
              && forall i | i in Credit(c, k) :: CountedBy(cfg, run, i, k)
  {
    hide Exec, Accounted, Claims;
    CreditAccounting(cfg, run);
    var c := Exec(cfg, run);
    forall e, k | Claims(cfg, c, e, k)
      ensures Exists(c.store.count, k, c.store.now) && |Credit(c, k)| + Leaks(c, k) >= cfg.quorumSize
    {
      ClaimNeedsCredits(cfg, c, e, k);
    }
    forall k, i | Exists(c.store.count, k, c.store.now) && i in Credit(c, k) ensures CountedBy(cfg, run, i, k) {
      CreditsAreCounts(cfg, run, i, k);
    }
  }

  lemma ClaimNeedsCredits(cfg: Config, c: Cluster, e: Label, k: string)
    requires Accounted(c) && Claims(cfg, c, e, k)
    ensures Exists(c.store.count, k, c.store.now) && |Credit(c, k)| + Leaks(c, k) >= cfg.quorumSize
  {
    StepLocals(cfg, c, e);
    ClaimNeedsQuorum(cfg, e.who, c.store, At(c, e.who), e.reply.Done?, e.delivery);
    hide Apply, Proceed;
  }

  lemma ClaimNeedsQuorum(cfg: Config, i: Instance, st: Store, l: Local, ok: bool, d: Delivery)
    requires l.pc.Claim? && Proceed(cfg, i, st, l, ok, d).pc.Send?
    ensures Claimable(cfg, st, l.finding.uniqueKey)
  {
  }

  // ----- runs without leaks -----

  /** The increment of i is in the living counter of k. */
  predicate HasCredit(c: Cluster, i: Instance, k: string) {
    i in Credit(c, k) && Exists(c.store.count, k, c.store.now)
  }

  /**
   The events that leave an increment of k behind: the eviction of a counted entry,
   the crash of an instance that counted, the "sent" branch forgetting its increment,
   an INCR whose answer is lost, a DECR that fails without effect, and a failed first
   EXPIRE. Whatever happens to instances whose increment is not in the counter is none.
   */
  predicate MayLeak(c: Cluster, e: Label, k: string) {
    match e
    case Evict(i, key) => key == k && HasCredit(c, i, k)
    case Crash(i) => HasCredit(c, i, k)
    case Step(i, r, _) =>
      && At(c, i).finding.uniqueKey == k
      && (match At(c, i).pc
          case Increment => !r.Done? && TakesEffect(r)
          case Retract(_) => !TakesEffect(r) && HasCredit(c, i, k)
          case SetCountTtl => !r.Done? && HasCredit(c, i, k)
          case ForgetSent => HasCredit(c, i, k)
          case _ => false)
    case _ => false
  }

  /** Nothing leaked since the counter of k came to life, if it is alive. */
  ghost predicate LeakFree(cfg: Config, run: seq<Label>, k: string) {
    run != [] && Exists(Exec(cfg, run).store.count, k, Exec(cfg, run).store.now) ==>
      LeakFree(cfg, run[..|run| - 1], k) && !MayLeak(Exec(cfg, run[..|run| - 1]), run[|run| - 1], k)
  }

  /** A call on k that is about to forget its increment has none in the living counter. */
  predicate Clean(c: Cluster, i: Instance, k: string) {
    At(c, i).finding.uniqueKey == k && Rolling(At(c, i).pc) ==> !HasCredit(c, i, k)
  }

  predicate Rolling(pc: Pc) {
    pc.ForgetUnexpirable? || pc.ForgetMissing? || pc.DropCount? || pc.ReleaseStatus? || pc.ForgetFailed?
  }

  lemma RollbackFlow(cfg: Config, i: Instance, st: Store, l: Local, ok: bool, d: Delivery)
    requires !l.pc.Idle?
    ensures var l' := Proceed(cfg, i, st, l, ok, d);
            && l'.finding == l.finding
            && (l'.pc.ForgetUnexpirable? ==> l.pc.SetCountTtl? && !ok)
            && (l'.pc.ForgetMissing? ==> l.pc.ReadCount? && !Exists(st.count, l.finding.uniqueKey, st.now))
            && (l'.pc.DropCount? ==> l.pc.Retract?)
            && (l'.pc.ReleaseStatus? ==> l.pc.Retract? || l.pc.DropCount?)
            && (l'.pc.ForgetFailed? ==> l.pc.ReleaseStatus?)
  {
    hide CoolDownKey, AsUint64, Claimable, Increments, Exists, Number;
  }

  lemma StepKeepsCallerClean(cfg: Config, c: Cluster, e: Label, k: string)
    requires Runs(c, e) && !MayLeak(c, e, k) && Clean(c, e.who, k)
    ensures Clean(Apply(cfg, c, e), e.who, k)
  {
    hide Apply, Proceed, LeaksAfter, StatusAfter;
    StepLocals(cfg, c, e);
    RollbackFlow(cfg, e.who, c.store, At(c, e.who), e.reply.Done?, e.delivery);
    ApplyCredit(cfg, c, e, k);
    ApplyCounts(cfg, c, e);
    ApplyStatuses(cfg, c, e);
  }

  /** A step of another call renews the counter only together with its credits. */
  lemma StepKeepsOthersClean(cfg: Config, c: Cluster, e: Label, k: string, j: Instance)
    requires Runs(c, e) && j != e.who && Clean(c, j, k)
    ensures Clean(Apply(cfg, c, e), j, k)
  {
    hide Apply, Proceed, LeaksAfter, StatusAfter, CountAfter;
    StepLocals(cfg, c, e);
    ApplyCredit(cfg, c, e, k);
    ApplyCounts(cfg, c, e);
    ApplyStatuses(cfg, c, e);
    CountBorn(c.store, At(c, e.who).pc, At(c, e.who).finding.uniqueKey, k);
  }

  /** Only INCR and DECR bring a counter to life. */
  lemma CountBorn(st: Store, pc: Pc, m: string, k: string)
    ensures Exists(CountAfter(st, pc, m), k, st.now) ==>
              Exists(st.count, k, st.now) || (k == m && ((pc.Increment? && Increments(st, k)) || pc.Retract?))
  {
  }

  lemma OthersKeepClean(cfg: Config, c: Cluster, e: Label, k: string, j: Instance)
    requires !Runs(c, e) && Clean(c, j, k)
    ensures Clean(Apply(cfg, c, e), j, k)
  {
    hide Apply, CoolDownKey;
    OtherLocals(cfg, c, e, j);
    ApplyCredit(cfg, c, e, k);
    ApplyCounts(cfg, c, e);
    ApplyStatuses(cfg, c, e);
  }

  /** The living counter of k has no leaks, and no rollback leaves an increment in it. */
  ghost predicate Tight(c: Cluster, k: string) {
    && (Exists(c.store.count, k, c.store.now) ==> Leaks(c, k) == 0)
    && (forall i :: Clean(c, i, k))
  }

  lemma NothingLeaks(cfg: Config, c: Cluster, e: Label, k: string)
    requires Tight(c, k) && !MayLeak(c, e, k)
    ensures Exists(Apply(cfg, c, e).store.count, k, Apply(cfg, c, e).store.now) ==> Leaks(Apply(cfg, c, e), k) == 0
  {
    hide Apply, CountAfter;
    ApplyCredit(cfg, c, e, k);
    ApplyCounts(cfg, c, e);
    ApplyStatuses(cfg, c, e);
    if Runs(c, e) {
      assert Clean(c, e.who, k);
      CountBorn(c.store, At(c, e.who).pc, At(c, e.who).finding.uniqueKey, k);
    }
  }

  /** Where the counter does not exist there is nothing to leak. */
  lemma NoCounterNoLeak(c: Cluster, k: string)
    requires !Exists(c.store.count, k, c.store.now)
    ensures Tight(c, k)
  {
  }

  lemma StepKeepsTight(cfg: Config, c: Cluster, e: Label, k: string)
    requires Tight(c, k) && !MayLeak(c, e, k)
    ensures Tight(Apply(cfg, c, e), k)
  {
    hide Apply, Clean, MayLeak;
    NothingLeaks(cfg, c, e, k);
    forall j ensures Clean(Apply(cfg, c, e), j, k) {
      assert Clean(c, j, k);
      if !Runs(c, e) {
        OthersKeepClean(cfg, c, e, k, j);
      } else if j == e.who {
        StepKeepsCallerClean(cfg, c, e, k);
      } else {
        StepKeepsOthersClean(cfg, c, e, k, j);
      }
    }
  }

  /** As long as nothing leaks out of the living counter it has no leaks, and no rollback leaves anything in it. */
  lemma {:induction false} NoLeaks(cfg: Config, run: seq<Label>, k: string)
    requires LeakFree(cfg, run, k)
    ensures Tight(Exec(cfg, run), k)
  {
    hide Apply, Tight, MayLeak;
    if run == [] || !Exists(Exec(cfg, run).store.count, k, Exec(cfg, run).store.now) {
      NoCounterNoLeak(Exec(cfg, run), k);
    } else {
      NoLeaks(cfg, run[..|run| - 1], k);
      StepKeepsTight(cfg, Exec(cfg, run[..|run| - 1]), run[|run| - 1], k);
    }
  }

  /**
   Without leaks from the living counter the quorum is really reached: quorumSize
   distinct instances counted the finding in it.
   */
  lemma QuorumReallyReached(cfg: Config, run: seq<Label>)
    ensures forall e, k | Claims(cfg, Exec(cfg, run), e, k) && LeakFree(cfg, run, k) ::
              exists instances: set<Instance> ::
                |instances| >= cfg.quorumSize && forall i | i in instances :: CountedBy(cfg, run, i, k)
  {
    hide Apply, Exec, Claims, Accounted, LeakFree, CountedBy;
    var c := Exec(cfg, run);
    QuorumSoundness(cfg, run);
    CreditAccounting(cfg, run);
    forall e, k | Claims(cfg, c, e, k) && LeakFree(cfg, run, k)
      ensures exists instances: set<Instance> ::
                |instances| >= cfg.quorumSize && forall i | i in instances :: CountedBy(cfg, run, i, k)
    {
      ClaimNeedsCredits(cfg, c, e, k);
      NoLeaks(cfg, run, k);
      assert |Credit(c, k)| >= cfg.quorumSize;
    }
  }
}
