/**
 Runs put together from undisturbed calls: several instances that count a finding
 one after the other, until the last of them makes up the quorum.
 */
module QuorumGather {
  import opened GoInts
  import opened Redis
  import opened Wrappers
  import opened QuorumModel
  import opened QuorumSteps
  import opened QuorumMutex
  import opened QuorumRetry

  // ----- runs whose calls take no time -----

  ghost predicate AllFresh(c: Cluster) {
    forall i :: At(c, i).pc.Idle? || At(c, i).start == c.store.now
  }

  predicate NoFailure(e: Label) {
    e.Step? ==> e.reply.Done?
  }

  /** Calls last no time and every command succeeds. */
  ghost predicate Swift(cfg: Config, run: seq<Label>) {
    PromptRun(cfg, run) && AllFresh(Exec(cfg, run)) && forall e | e in run :: NoFailure(e)
  }

  lemma SwiftStep(cfg: Config, run: seq<Label>, e: Label)
    requires Swift(cfg, run) && NoFailure(e)
    requires e.Tick? ==> forall i :: At(Exec(cfg, run), i).pc.Idle?
    ensures Swift(cfg, run + [e])
  {
    var c := Exec(cfg, run);
    var c' := Apply(cfg, c, e);
    assert (run + [e])[..|run|] == run;
    ApplyStatuses(cfg, c, e);
    forall i ensures At(c', i).pc.Idle? || At(c', i).start == c'.store.now {
      if Runs(c, e) {
        StepLocals(cfg, c, e);
        Flow(cfg, e.who, c.store, At(c, e.who), e.reply.Done?, e.delivery);
      } else {
        OtherLocals(cfg, c, e, i);
      }
    }
    hide Apply;
    assert AllFresh(Exec(cfg, run + [e]));
    assert Prompt(Exec(cfg, run + [e]));
    assert forall x | x in run + [e] :: x in run || x == e;
  }

  lemma {:induction false} SwiftBurst(cfg: Config, run: seq<Label>, i: Instance, d: Delivery, n: nat)
    requires Swift(cfg, run)
    ensures Swift(cfg, run + Burst(i, d, n))
  {
    hide Swift;
    if n == 0 {
      assert run + Burst(i, d, 0) == run;
    } else {
      SwiftBurst(cfg, run, i, d, n - 1);
      assert run + Burst(i, d, n) == (run + Burst(i, d, n - 1)) + [Step(i, Done, d)];
      SwiftStep(cfg, run + Burst(i, d, n - 1), Step(i, Done, d));
    }
  }

  lemma SwiftCall(cfg: Config, run: seq<Label>, i: Instance, f: Finding, d: Delivery, n: nat)
    requires Swift(cfg, run)
    ensures Swift(cfg, run + Calls(i, f, d, n))
  {
    hide Swift;
    SwiftStep(cfg, run, Receive(i, Parsed(f)));
    SwiftBurst(cfg, run + [Receive(i, Parsed(f))], i, d, n);
    assert run + Calls(i, f, d, n) == (run + [Receive(i, Parsed(f))]) + Burst(i, d, n);
  }

  lemma InitIsSwift(cfg: Config)
    ensures Swift(cfg, []) && Exec(cfg, []) == INIT
  {
  }

  // ----- counting up to the quorum -----

  /** A finding that is counted while its quorum is not collected is put back. */
  lemma WaitsForOthers(cfg: Config, i: Instance, v: View, f: Finding, d: Delivery)
    requires Passes(cfg, f) && f.uniqueKey !in v.local.cache && v.local.pc.Idle?
    requires Exists(v.store.count, f.uniqueKey, v.store.now)
    requires 1 <= v.store.count[f.uniqueKey].value < INT64_MAX
    requires v.store.count[f.uniqueKey].value + 1 < cfg.quorumSize
    ensures Call(cfg, i, v, f, d, 3) ==
            View(v.store.(count := Add(v.store.count, f.uniqueKey, v.store.now, 1)),
                 Local(Idle, f, v.store.now, v.local.cache + {f.uniqueKey}, [NakWithDelay(RESEND_QUORUM_MSG_AFTER)]),
                 v.sends)
  {
    hide Next;
    NextCollects(cfg, i, Call(cfg, i, v, f, d, 0), d);
    NextCollects(cfg, i, Call(cfg, i, v, f, d, 1), d);
    NextCollects(cfg, i, Call(cfg, i, v, f, d, 2), d);
  }

  /** Instances base, base + 1, ... count the finding; the first of them gives the counter its lifetime. */
  function Helpers(base: Instance, f: Finding, n: nat): seq<Label> {
    if n == 0 then []
    else Helpers(base, f, n - 1) + Calls(base + n - 1, f, NotDelivered, if n == 1 then 4 else 3)
  }

  /** These instances are idle and have not counted the finding. */
  ghost predicate Ready(c: Cluster, base: Instance, n: nat, k: string) {
    forall j: Instance | base <= j < base + n :: At(c, j).pc.Idle? && k !in At(c, j).cache
  }

  /** The counters once n instances have counted k. */
  function CountOf(st: Store, k: string, n: int): Table<string, int> {
    st.count[k := Entry(n, Some(st.now + MINS_10))]
  }

  lemma {:induction false} HelpersCount(cfg: Config, run: seq<Label>, base: Instance, f: Finding, n: nat)
    requires var c := Exec(cfg, run);
             Ready(c, base, n, f.uniqueKey) && !Exists(c.store.count, f.uniqueKey, c.store.now)
    requires Passes(cfg, f) && 0 < n < cfg.quorumSize && n <= INT64_MAX
    ensures var c, c' := Exec(cfg, run), Exec(cfg, run + Helpers(base, f, n));
            && c'.store == c.store.(count := CountOf(c.store, f.uniqueKey, n)) && c'.sends == c.sends
            && (forall j: Instance | base <= j < base + n :: At(c', j).pc.Idle?)
            && (forall j: Instance | !(base <= j < base + n) :: At(c', j) == At(c, j))
  {
    hide Exec, Call, Calls, Next;
    var none := NotDelivered;
    if n == 1 {
      assert run + Helpers(base, f, n) == run + Calls(base, f, none, 4);
      CallIsRun(cfg, run, base, f, none, 4);
      FirstCount(cfg, base, Seen(Exec(cfg, run), base), f, none);
    } else {
      var j := base + n - 1;
      var run' := run + Helpers(base, f, n - 1);
      HelpersCount(cfg, run, base, f, n - 1);
      CallIsRun(cfg, run', j, f, none, 3);
      WaitsForOthers(cfg, j, Seen(Exec(cfg, run'), j), f, none);
      assert run + Helpers(base, f, n) == run' + Calls(j, f, none, 3);
    }
  }

  /** A quorum of q instances, i among them: the others count, and then i handles the finding up to n operations. */
  function Gather(q: nat, i: Instance, f: Finding, d: Delivery, n: nat): seq<Label> {
    if q <= 1 then Calls(i, f, NotDelivered, 4) + Calls(i, f, d, n)
    else Helpers(i + 1, f, q - 1) + Calls(i, f, d, n)
  }

  /** The last call of the gathering, and what it finds. */
  lemma Gathered(cfg: Config, run: seq<Label>, i: Instance, f: Finding, d: Delivery, n: nat) returns (v: View)
    requires var c := Exec(cfg, run);
             Ready(c, i, cfg.quorumSize, f.uniqueKey) && !Exists(c.store.count, f.uniqueKey, c.store.now)
    requires Passes(cfg, f) && 1 <= cfg.quorumSize <= INT64_MAX
    ensures var c, c', q := Exec(cfg, run), Exec(cfg, run + Gather(cfg.quorumSize, i, f, d, n)), cfg.quorumSize;
            && ReachesQuorum(cfg, v, f) && Seen(c', i) == Call(cfg, i, v, f, d, n)
            && StoreCounted(v, f.uniqueKey) == c.store.(count := CountOf(c.store, f.uniqueKey, q))
            && v.store == c.store.(count := v.store.count) && v.sends == c.sends
            && (forall j: Instance | i < j < i + q :: At(c', j).pc.Idle?)
            && (forall j: Instance | !(i <= j < i + q) :: At(c', j) == At(c, j))
  {
    hide Exec, Call, Calls, Next;
    var q, none := cfg.quorumSize, NotDelivered;
    if q == 1 {
      var run' := run + Calls(i, f, none, 4);
      CallIsRun(cfg, run, i, f, none, 4);
      FirstCount(cfg, i, Seen(Exec(cfg, run), i), f, none);
      CallIsRun(cfg, run', i, f, d, n);
      v := Seen(Exec(cfg, run'), i);
      assert run + Gather(q, i, f, d, n) == run' + Calls(i, f, d, n);
    } else {
      var run' := run + Helpers(i + 1, f, q - 1);
      HelpersCount(cfg, run, i + 1, f, q - 1);
      CallIsRun(cfg, run', i, f, d, n);
      v := Seen(Exec(cfg, run'), i);
      assert run + Gather(q, i, f, d, n) == run' + Calls(i, f, d, n);
      assert StoreCounted(v, f.uniqueKey).count == CountOf(Exec(cfg, run).store, f.uniqueKey, q);
    }
  }

  lemma {:induction false} SwiftHelpers(cfg: Config, run: seq<Label>, base: Instance, f: Finding, n: nat)
    requires Swift(cfg, run)
    ensures Swift(cfg, run + Helpers(base, f, n))
  {
    hide Swift, Calls;
    if n == 0 {
      assert run + Helpers(base, f, 0) == run;
    } else {
      var m := if n == 1 then 4 else 3;
      SwiftHelpers(cfg, run, base, f, n - 1);
      SwiftCall(cfg, run + Helpers(base, f, n - 1), base + n - 1, f, NotDelivered, m);
      assert run + Helpers(base, f, n) ==
             (run + Helpers(base, f, n - 1)) + Calls(base + n - 1, f, NotDelivered, m);
    }
  }

  lemma SwiftGather(cfg: Config, run: seq<Label>, q: nat, i: Instance, f: Finding, d: Delivery, n: nat)
    requires Swift(cfg, run)
    ensures Swift(cfg, run + Gather(q, i, f, d, n))
  {
    hide Swift, Calls, Helpers;
    var first := if q <= 1 then Calls(i, f, NotDelivered, 4) else Helpers(i + 1, f, q - 1);
    if q <= 1 {
      SwiftCall(cfg, run, i, f, NotDelivered, 4);
    } else {
      SwiftHelpers(cfg, run, i + 1, f, q - 1);
    }
    SwiftCall(cfg, run + first, i, f, d, n);
    assert run + Gather(q, i, f, d, n) == (run + first) + Calls(i, f, d, n);
  }

  /** A quorum nobody else cares for collects itself and sends; the send is not booked yet. */
  lemma QuorumSends(cfg: Config, run: seq<Label>, i: Instance, f: Finding)
    requires Passes(cfg, f) && 1 <= cfg.quorumSize <= INT64_MAX && Swift(cfg, run)
    requires var c := Exec(cfg, run);
             && Unclaimed(cfg, c.store, f) && !Exists(c.store.count, f.uniqueKey, c.store.now)
             && Ready(c, i, cfg.quorumSize, f.uniqueKey)
    ensures var c, run', k := Exec(cfg, run), run + Gather(cfg.quorumSize, i, f, Delivered, 7), f.uniqueKey;
            var c' := Exec(cfg, run');
            && Swift(cfg, run')
            && c'.sends == c.sends + [Record(c.store.now, i, k, CoolDownKey(cfg, f))]
            && c'.store == c.store.(count := CountOf(c.store, k, cfg.quorumSize),
                                    status := SetFor(c.store.status, k, SENDING, c.store.now, MINS_12))
            && (forall j: Instance | i < j < i + cfg.quorumSize :: At(c', j).pc.Idle?)
            && (forall j: Instance | !(i <= j < i + cfg.quorumSize) :: At(c', j) == At(c, j))
  {
    hide Exec, Call, Next, Swift, Gather, CoolDownKey;
    SwiftGather(cfg, run, cfg.quorumSize, i, f, Delivered, 7);
    var v := Gathered(cfg, run, i, f, Delivered, 7);
    ReachesSend(cfg, i, v, f, Delivered);
    CallGrows(cfg, i, v, f, Delivered, 6);
    NextBooksSend(cfg, i, Call(cfg, i, v, f, Delivered, 6));
  }

  lemma CallGrows(cfg: Config, i: Instance, v: View, f: Finding, d: Delivery, n: nat)
    ensures Call(cfg, i, v, f, d, n + 1) == Next(cfg, i, Call(cfg, i, v, f, d, n), d)
  {
    hide Next;
  }
}
