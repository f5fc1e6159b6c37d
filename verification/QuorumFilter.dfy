/** Which findings the handler may count or send, and what it does with the others. */
module QuorumFilter {
  import opened GoInts
  import opened Redis
  import opened QuorumModel
  import opened QuorumSteps

  /** The consumer is configured for findings of this severity and alert. */
  predicate Wanted(cfg: Config, f: Finding) {
    && f.severity in cfg.severitySet
    && (cfg.findingFilter == {} || f.alertId in cfg.findingFilter)
  }

  /** A call in progress works on a wanted finding, on the path the consumer is configured for. */
  predicate Proper(cfg: Config, l: Local) {
    !l.pc.Idle? ==> Wanted(cfg, l.finding) && (Debugging(l.pc) <==> !cfg.byQuorum)
  }

  lemma ProperFlow(cfg: Config, i: Instance, st: Store, l: Local, ok: bool, d: Delivery)
    requires !l.pc.Idle?
    ensures var l' := Proceed(cfg, i, st, l, ok, d);
            l'.finding == l.finding && (l'.pc.Idle? || (Debugging(l'.pc) <==> Debugging(l.pc)))
  {
    hide CoolDownKey, Claimable, Increments, Exists, Number;
  }

  /** In every run only wanted findings are counted, claimed, sent or deduplicated. */
  lemma {:induction false} OnlyWantedFindings(cfg: Config, run: seq<Label>)
    ensures forall i :: Proper(cfg, At(Exec(cfg, run), i))
  {
    hide Apply, Proceed;
    if run != [] {
      var c, e := Exec(cfg, run[..|run| - 1]), run[|run| - 1];
      OnlyWantedFindings(cfg, run[..|run| - 1]);
      forall i ensures Proper(cfg, At(Apply(cfg, c, e), i)) {
        assert Proper(cfg, At(c, i));
        if Runs(c, e) {
          StepLocals(cfg, c, e);
          ProperFlow(cfg, e.who, c.store, At(c, e.who), e.reply.Done?, e.delivery);
        } else {
          OtherLocals(cfg, c, e, i);
        }
      }
    }
  }

  /** Only the instance changes, by a call that is over at once: it issued no command and touched no record. */
  ghost predicate SettledAtOnce(c: Cluster, c': Cluster, i: Instance, s: Settlement) {
    && c'.store == c.store && c'.sends == c.sends && c'.acks == c.acks && c'.debugSends == c.debugSends
    && c'.credit == c.credit && c'.leaks == c.leaks
    && (forall j | j != i :: At(c', j) == At(c, j))
    && At(c', i).pc.Idle? && At(c', i).cache == At(c, i).cache && At(c', i).settled == [s]
  }

  /**
   What a delivery to an idle instance does, in every state: a broken message is
   terminated and an unwanted finding acknowledged, both at once; a wanted one starts
   a call that has settled nothing yet.
   */
  lemma DeliveryIsFiltered(cfg: Config, c: Cluster, i: Instance, msg: Message)
    requires At(c, i).pc.Idle?
    ensures var c' := Apply(cfg, c, Receive(i, msg));
            && (msg.Broken? ==> SettledAtOnce(c, c', i, Term))
            && (msg.Parsed? && !Wanted(cfg, msg.finding) ==> SettledAtOnce(c, c', i, Ack))
            && (msg.Parsed? && Wanted(cfg, msg.finding) && |msg.finding.uniqueKey| >= 4 ==>
                  && c' == c.(locals := c'.locals) && (forall j | j != i :: At(c', j) == At(c, j))
                  && At(c', i).finding == msg.finding && At(c', i).cache == At(c, i).cache
                  && At(c', i).start == c.store.now && At(c', i).settled == []
                  && At(c', i).pc == if cfg.byQuorum then Lookup else SetDedup)
  {
    var c' := Apply(cfg, c, Receive(i, msg));
    assert msg.Parsed? && !Wanted(cfg, msg.finding) ==> Loggable(cfg, msg);
    assert forall j | j != i :: At(c', j) == At(c, j);
  }

  /** The settlement a handler step adds is never Term: a finding that was parsed comes back or is acknowledged. */
  lemma StepsDoNotTerminate(cfg: Config, c: Cluster, e: Label)
    requires Runs(c, e)
    ensures var s, s' := At(c, e.who).settled, At(Apply(cfg, c, e), e.who).settled;
            s' == s || (exists x :: x != Term && s' == s + [x])
  {
    hide Apply;
    StepLocals(cfg, c, e);
    SettleKinds(cfg, e.who, c.store, At(c, e.who), e.reply.Done?, e.delivery);
  }

  lemma SettleKinds(cfg: Config, i: Instance, st: Store, l: Local, ok: bool, d: Delivery)
    requires !l.pc.Idle?
    ensures var s' := Proceed(cfg, i, st, l, ok, d).settled;
            s' == l.settled || (exists x :: x != Term && s' == l.settled + [x])
  {
    hide CoolDownKey, AsUint64, Claimable, Increments, Exists, Number;
    assert forall m, x {:trigger Finish(m, x)} :: Finish(m, x).settled == m.settled + [x];
  }
}
