/**
 The cool-down across unique keys: once a send is booked, no finding with the same
 content is sent for thirty minutes, under whatever key, by a call that has yet to
 check the cool-down. Calls need not be short, and nothing else need work.
 */
module QuorumCoolDown {
  import opened QuorumModel
  import opened QuorumSteps
  import opened QuorumSends

  /** The call is past its check of this cool-down and may still send. */
  predicate PastCheck(cfg: Config, l: Local, cd: string) {
    (l.pc.Claim? || l.pc.Send?) && CoolDownKey(cfg, l.finding) == cd
  }

  /** The check of this cool-down is answered. */
  predicate CheckWorks(cfg: Config, c: Cluster, e: Label, cd: string) {
    e.Step? && At(c, e.who).pc.ReadCoolDown? && CoolDownKey(cfg, At(c, e.who).finding) == cd ==> e.reply.Done?
  }

  /** Every check of this cool-down from label m on is answered. */
  ghost predicate ChecksWork(cfg: Config, run: seq<Label>, m: nat, cd: string) {
    |run| > m ==>
      && ChecksWork(cfg, run[..|run| - 1], m, cd)
      && CheckWorks(cfg, Exec(cfg, run[..|run| - 1]), run[|run| - 1], cd)
  }

  /** Booking a send makes its cool-down, and that of every earlier send of its content, last. */
  lemma BookingCools(cfg: Config, c: Cluster, e: Label, r: Record)
    requires Runs(c, e) && At(c, e.who).pc.SetCoolDown? && TakesEffect(e.reply)
    requires CoolDownKey(cfg, At(c, e.who).finding) == r.coolDownKey && r.time <= c.store.now
    ensures Cooled(Apply(cfg, c, e), r)
  {
    hide Apply, CoolDownKey;
    ApplyCoolDowns(cfg, c, e);
  }

  /** What a booked send means for an instance that has yet to check. */
  ghost predicate KeptOff(cfg: Config, c: Cluster, a: Record, j: Instance, from: nat) {
    && Cooled(c, a) && a.time <= c.store.now
    && (PastCheck(cfg, At(c, j), a.coolDownKey) ==> Elapsed(c, a))
    && (forall n | from <= n < |c.sends| && c.sends[n].instance == j && c.sends[n].coolDownKey == a.coolDownKey ::
          c.sends[n].time >= a.time + MINS_30)
  }

  lemma ApplyKeepsOff(cfg: Config, c: Cluster, e: Label, a: Record, j: Instance, from: nat)
    requires KeptOff(cfg, c, a, j, from) && CheckWorks(cfg, c, e, a.coolDownKey)
    ensures KeptOff(cfg, Apply(cfg, c, e), a, j, from)
  {
    hide Apply, Proceed, CoolDownKey, Begin;
    CooledStays(cfg, c, e, a);
    ApplySends(cfg, c, e);
    ApplyStatuses(cfg, c, e);
    if Runs(c, e) {
      StepLocals(cfg, c, e);
      SendFlow(cfg, e.who, c.store, At(c, e.who), e.reply.Done?, e.delivery);
    } else {
      OthersStart(cfg, c, e, j);
    }
  }

  /**
   If instance j has yet to check the cool-down when the send a is booked, then
   every later send of that content by j is at least thirty minutes after a.
   */
  lemma {:induction false} BookedSendKeepsOff(cfg: Config, run: seq<Label>, m: nat, a: Record, j: Instance)
    requires m <= |run| && ChecksWork(cfg, run, m, a.coolDownKey)
    requires var c := Exec(cfg, run[..m]);
             Cooled(c, a) && a.time <= c.store.now && !PastCheck(cfg, At(c, j), a.coolDownKey)
    ensures KeptOff(cfg, Exec(cfg, run), a, j, |Exec(cfg, run[..m]).sends|)
  {
    hide Apply, CoolDownKey;
    if |run| == m {
      assert run[..m] == run;
    } else {
      var before := run[..|run| - 1];
      assert before[..m] == run[..m];
      BookedSendKeepsOff(cfg, before, m, a, j);
      ApplyKeepsOff(cfg, Exec(cfg, before), run[|run| - 1], a, j, |Exec(cfg, run[..m]).sends|);
    }
  }
}
