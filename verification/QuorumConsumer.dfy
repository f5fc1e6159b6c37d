/**
 The handler as the program writes it: a consumer object with its LRU, talking to
 a shared Redis object. Between any two of its operations other instances, the
 clock and the LRU's expiry may do anything they can do in the transition system.
 Each operation is proved to be one label of a run, so whatever holds of all runs
 holds of all executions of this code.
 */
module QuorumConsumer {
  import opened Wrappers
  import opened GoInts
  import opened Redis
  import opened QuorumModel
  import opened QuorumSteps
  import opened QuorumMutex
  import opened QuorumFilter

  /** A label that is not an operation of instance me; its cache entries may still expire. */
  predicate Foreign(e: Label, me: Instance) {
    match e
    case Receive(to, _) => to != me
    case Step(who, _, _) => who != me
    case Crash(victim) => victim != me
    case _ => true
  }

  ghost predicate OthersMoved(before: seq<Label>, after: seq<Label>, me: Instance) {
    |before| <= |after| && forall e | e in after[|before|..] :: Foreign(e, me)
  }

  /** A label that begins or ends a call of instance me from outside. */
  predicate Interrupts(e: Label, me: Instance) {
    (e.Receive? && e.to == me) || (e.Crash? && e.victim == me)
  }

  ghost function Interruptions(run: seq<Label>, me: Instance): nat {
    if run == [] then 0
    else Interruptions(run[..|run| - 1], me) + if Interrupts(run[|run| - 1], me) then 1 else 0
  }

  /** Where nothing interrupts, an instance's own labels are its steps. */
  lemma {:induction false} OnlySteps(run: seq<Label>, m: nat, me: Instance)
    requires m <= |run|
    ensures Interruptions(run[..m], me) <= Interruptions(run, me)
    ensures Interruptions(run[..m], me) == Interruptions(run, me) ==>
              forall x | m <= x < |run| :: Foreign(run[x], me) || (run[x].Step? && run[x].who == me)
  {
    if m == |run| {
      assert run[..m] == run;
    } else {
      var before := run[..|run| - 1];
      assert before[..m] == run[..m];
      OnlySteps(before, m, me);
    }
  }

  /** The run goes on with one call of me: what others do, the delivery, and then its steps among what others do. */
  ghost predicate OneCall(before: seq<Label>, after: seq<Label>, me: Instance, msg: Message) {
    && before <= after
    && exists m :: |before| <= m < |after| && CallFrom(before, after, m, me, msg)
  }

  /** Instance me issued no operation. */
  ghost predicate NoOwnStep(before: seq<Label>, after: seq<Label>, me: Instance) {
    forall x | |before| <= x < |after| :: !(after[x].Step? && after[x].who == me)
  }

  ghost predicate CallFrom(before: seq<Label>, after: seq<Label>, m: nat, me: Instance, msg: Message)
    requires |before| <= m < |after|
  {
    && after[m] == Receive(me, msg)
    && (forall x | |before| <= x < m :: Foreign(after[x], me))
    && (forall x | m < x < |after| :: Foreign(after[x], me) || (after[x].Step? && after[x].who == me))
  }

  lemma RetractStep(cfg: Config, i: Instance, st: Store, l: Local, ok: bool, d: Delivery)
    requires l.pc.Retract?
    ensures Commanded(cfg, i, st, l) == st.(count := Add(st.count, l.finding.uniqueKey, st.now, -1))
    ensures Proceed(cfg, i, st, l, ok, d) ==
            l.(pc := if ok && Number(st.count, l.finding.uniqueKey, st.now) - 1 <= 0
                     then DropCount(l.pc.delay) else ReleaseStatus(l.pc.delay))
  {
  }

  lemma LifetimeStep(cfg: Config, i: Instance, st: Store, l: Local, ok: bool, d: Delivery)
    requires l.pc.SetCountTtl? || l.pc.ShortenCount?
    ensures Commanded(cfg, i, st, l) ==
            st.(count := Expire(st.count, l.finding.uniqueKey, st.now, if l.pc.SetCountTtl? then MINS_10 else MIN_1))
    ensures Proceed(cfg, i, st, l, ok, d) ==
            if l.pc.ShortenCount? then l.(pc := ShortenStatus)
            else if ok then Finish(l, Nak) else l.(pc := ForgetUnexpirable)
  {
  }

  lemma DropStep(cfg: Config, i: Instance, st: Store, l: Local, ok: bool, d: Delivery)
    requires l.pc.DropUnexpirable? || l.pc.DropCount?
    ensures Commanded(cfg, i, st, l) == st.(count := Del(st.count, l.finding.uniqueKey))
    ensures Proceed(cfg, i, st, l, ok, d) ==
            if l.pc.DropUnexpirable? then Finish(l, Nak) else l.(pc := ReleaseStatus(l.pc.delay))
  {
  }

  lemma ForgetStep(cfg: Config, i: Instance, st: Store, l: Local, ok: bool, d: Delivery)
    requires Forgets(l.pc)
    ensures Commanded(cfg, i, st, l) == st
    ensures var l' := l.(cache := l.cache - {l.finding.uniqueKey});
            Proceed(cfg, i, st, l, ok, d) ==
            match l.pc
            case ForgetUnexpirable => l'.(pc := DropUnexpirable)
            case ForgetSent => l'.(pc := ShortenCount)
            case ForgetMissing => Finish(l', Ack)
            case ForgetFailed(delay) => Finish(l', NakWithDelay(delay))
            case _ => l'
  {
  }

  lemma IncrementStep(cfg: Config, i: Instance, st: Store, l: Local, ok: bool, d: Delivery)
    requires l.pc.Increment?
    ensures Commanded(cfg, i, st, l) ==
            if Increments(st, l.finding.uniqueKey)
            then st.(count := Add(st.count, l.finding.uniqueKey, st.now, 1)) else st
    ensures Proceed(cfg, i, st, l, ok, d) ==
            if ok && Increments(st, l.finding.uniqueKey)
            then l.(pc := Remember(Number(st.count, l.finding.uniqueKey, st.now) + 1)) else Finish(l, Nak)
  {
  }

  lemma ClaimStep(cfg: Config, i: Instance, st: Store, l: Local, ok: bool, d: Delivery)
    requires l.pc.Claim?
    ensures Commanded(cfg, i, st, l) == st.(status := ClaimScript(cfg, st, l.finding.uniqueKey))
    ensures Proceed(cfg, i, st, l, ok, d) ==
            if !ok then Finish(l, Nak)
            else if Claimable(cfg, st, l.finding.uniqueKey) then l.(pc := Send)
            else Finish(l, NakWithDelay(RESEND_QUORUM_MSG_AFTER))
  {
  }

  class Server {
    const cfg: Config
    var now: nat
    var count: Table<string, int>
    var status: Table<string, string>
    var coolDown: Table<string, string>
    var dedup: Table<(Instance, string), string>
    ghost var run: seq<Label>

    ghost function State(): Cluster
      reads this
    {
      Exec(cfg, run)
    }

    /** The tables are those of the run so far. */
    ghost predicate Valid()
      reads this
    {
      State().store == Store(now, count, status, coolDown, dedup)
    }

    constructor (cfg: Config)
      ensures Valid() && this.cfg == cfg && run == []
    {
      this.cfg := cfg;
      now, count, status, coolDown, dedup := 0, map[], map[], map[], map[];
      run := [];
    }
  }

  class Consumer {
    const id: Instance
    const cfg: Config
    const server: Server
    var cache: set<string>
    var settled: seq<Settlement>

    ghost function Me(): Local
      reads server
    {
      At(server.State(), id)
    }

    /** How often a delivery to this instance or its crash is in the run. */
    ghost function Interrupted(): nat
      reads server
    {
      Interruptions(server.run, id)
    }

    ghost predicate Valid()
      reads `cache, server
    {
      server.Valid() && server.cfg == cfg && Me().cache == cache
    }

    /** The call now stands at pc and has settled these; only the cache may differ otherwise. */
    twostate predicate StandsAt(pc: Pc, done: seq<Settlement>)
      reads `cache, server
    {
      && Valid() && old(server.run) <= server.run && Interrupted() == old(Interrupted())
      && Me() == old(Me()).(pc := pc, settled := done, cache := cache)
    }

    constructor (id: Instance, server: Server)
      requires server.Valid() && At(server.State(), id) == FRESH
      ensures Valid() && this.id == id && this.server == server && cfg == server.cfg && settled == []
      ensures Me() == FRESH
    {
      this.id, this.cfg, this.server := id, server.cfg, server;
      cache, settled := {}, [];
    }

    // ----- interleaving and logging -----

    /**
     The environment's turn. The contract is all a caller learns, so every caller
     is proved for whatever the others do; the code itself does nothing here.
     */
    method Interleave()
      requires Valid()
      modifies this`cache, server
      ensures Valid() && Interrupted() == old(Interrupted())
      ensures old(server.run) <= server.run && OthersMoved(old(server.run), server.run, id)
      ensures Me() == old(Me()).(cache := cache) && cache <= old(cache)
    {
    }

    /** Whether a command fails, and if it does, whether it took effect, is not up to the program. */
    method Outcome() returns (r: Reply)
    {
      r := *;
    }

    ghost method Log(e: Label)
      modifies server`run
      ensures server.run == old(server.run) + [e]
      ensures server.State() == Apply(server.cfg, old(server.State()), e)
      ensures Interrupted() == old(Interrupted()) + if Interrupts(e, id) then 1 else 0
    {
      server.run := server.run + [e];
      assert server.run[..|server.run| - 1] == old(server.run);
    }

    // ----- settling -----

    method Settle(s: Settlement)
      modifies this`settled
      ensures settled == old(settled) + [s]
    {
      settled := settled + [s];
    }

    // ----- cache operations -----

    method CacheContains(key: string) returns (found: bool)
      requires Valid() && Me().pc.Lookup? && key == Me().finding.uniqueKey
      modifies this`cache, server
      ensures StandsAt(if found then Touch else Increment, old(Me().settled))
    {
      hide CountAfter, StatusAfter, DedupAfter, CoolDownKey, Claimable;
      hide Interruptions, OthersMoved, Apply, Exec, Decide, Deliver, Debug;
      Interleave();
      ghost var c := server.State();
      found := key in cache;
      ghost var e := Step(id, Done, NotDelivered);
      Log(e);
      StepIsCommand(cfg, c, e);
    }

    /** cache.Get and cache.Add of one touch more. */
    method CacheTouch(key: string)
      requires Valid() && Me().pc.Touch? && key == Me().finding.uniqueKey
      modifies this`cache, server
      ensures StandsAt(ReadCount, old(Me().settled))
    {
      hide CountAfter, StatusAfter, DedupAfter, CoolDownKey, Claimable;
      hide Interruptions, OthersMoved, Apply, Exec, Decide, Deliver, Debug;
      Interleave();
      ghost var c := server.State();
      cache := cache + {key};
      ghost var e := Step(id, Done, NotDelivered);
      Log(e);
      StepIsCommand(cfg, c, e);
    }

    method CacheRemember(key: string, ghost n: int)
      requires Valid() && Me().pc == Remember(n) && key == Me().finding.uniqueKey
      modifies this`cache, server
      ensures AsUint64(n) == 1 ==> StandsAt(SetCountTtl, old(Me().settled))
      ensures AsUint64(n) != 1 && AsUint64(n) >= cfg.quorumSize ==> StandsAt(ReadStatus, old(Me().settled))
      ensures AsUint64(n) != 1 && AsUint64(n) < cfg.quorumSize ==>
                StandsAt(Idle, old(Me().settled) + [NakWithDelay(RESEND_QUORUM_MSG_AFTER)])
    {
      hide CountAfter, StatusAfter, DedupAfter, CoolDownKey, Claimable;
      hide Interruptions, OthersMoved, Apply, Exec, Decide, Deliver, Debug;
      Interleave();
      ghost var c := server.State();
      cache := cache + {key};
      ghost var e := Step(id, Done, NotDelivered);
      Log(e);
      StepIsCommand(cfg, c, e);
    }

    method CacheRemove(key: string)
      requires Valid() && Forgets(Me().pc) && key == Me().finding.uniqueKey
      modifies this`cache, server
      ensures old(Me().pc.ForgetUnexpirable?) ==> StandsAt(DropUnexpirable, old(Me().settled))
      ensures old(Me().pc.ForgetSent?) ==> StandsAt(ShortenCount, old(Me().settled))
      ensures old(Me().pc.ForgetMissing?) ==> StandsAt(Idle, old(Me().settled) + [Ack])
      ensures old(Me().pc.ForgetFailed?) ==> StandsAt(Idle, old(Me().settled) + [NakWithDelay(old(Me().pc.delay))])
    {
      hide Interruptions, OthersMoved, Apply, Exec, Commanded, Proceed;
      Interleave();
      ghost var c := server.State();
      cache := cache - {key};
      ghost var e := Step(id, Done, NotDelivered);
      Log(e);
      StepIsCommand(cfg, c, e);
      ForgetStep(cfg, id, c.store, At(c, id), true, NotDelivered);
    }

    // ----- Redis commands -----

    method Incr(key: string) returns (failed: bool, value: int)
      requires Valid() && Me().pc.Increment? && key == Me().finding.uniqueKey
      modifies this`cache, server
      ensures if failed then StandsAt(Idle, old(Me().settled) + [Nak]) else StandsAt(Remember(value), old(Me().settled))
    {
      hide Interruptions, OthersMoved, Apply, Exec, Commanded, Proceed;
      Interleave();
      ghost var c := server.State();
      var r := Outcome();
      value := Number(server.count, key, server.now) + 1;
      failed := !r.Done? || value > INT64_MAX;
      if TakesEffect(r) && value <= INT64_MAX {
        var deadline := if Exists(server.count, key, server.now) then server.count[key].deadline else None;
        server.count := server.count[key := Entry(value, deadline)];
      }
      ghost var e := Step(id, r, NotDelivered);
      Log(e);
      StepIsCommand(cfg, c, e);
      IncrementStep(cfg, id, c.store, At(c, id), r.Done?, NotDelivered);
    }

    method ExpireCount(key: string, ttl: nat) returns (failed: bool)
      requires Valid() && key == Me().finding.uniqueKey
      requires (Me().pc.SetCountTtl? && ttl == MINS_10) || (Me().pc.ShortenCount? && ttl == MIN_1)
      modifies this`cache, server
      ensures old(Me().pc.ShortenCount?) ==> StandsAt(ShortenStatus, old(Me().settled))
      ensures old(Me().pc.SetCountTtl?) && failed ==> StandsAt(ForgetUnexpirable, old(Me().settled))
      ensures old(Me().pc.SetCountTtl?) && !failed ==> StandsAt(Idle, old(Me().settled) + [Nak])
    {
      hide Interruptions, OthersMoved, Apply, Exec, Commanded, Proceed;
      Interleave();
      ghost var c := server.State();
      var r := Outcome();
      failed := !r.Done?;
      if TakesEffect(r) && Exists(server.count, key, server.now) {
        server.count := server.count[key := server.count[key].(deadline := Some(server.now + ttl))];
      }
      ghost var e := Step(id, r, NotDelivered);
      Log(e);
      StepIsCommand(cfg, c, e);
      LifetimeStep(cfg, id, c.store, At(c, id), r.Done?, NotDelivered);
    }

    method ExpireStatus(key: string, ttl: nat) returns (failed: bool)
      requires Valid() && Me().pc.ShortenStatus? && ttl == MIN_1 && key == Me().finding.uniqueKey
      modifies this`cache, server
      ensures StandsAt(Idle, old(Me().settled))
    {
      hide Interruptions, OthersMoved, Apply, Exec, Collect, Deliver, Debug;
      Interleave();
      ghost var c := server.State();
      var r := Outcome();
      failed := !r.Done?;
      if TakesEffect(r) && Exists(server.status, key, server.now) {
        server.status := server.status[key := server.status[key].(deadline := Some(server.now + ttl))];
      }
      ghost var e := Step(id, r, NotDelivered);
      Log(e);
      StepIsCommand(cfg, c, e);
    }

    method DelCount(key: string) returns (failed: bool)
      requires Valid() && (Me().pc.DropUnexpirable? || Me().pc.DropCount?) && key == Me().finding.uniqueKey
      modifies this`cache, server
      ensures old(Me().pc.DropUnexpirable?) ==> StandsAt(Idle, old(Me().settled) + [Nak])
      ensures old(Me().pc.DropCount?) ==> StandsAt(ReleaseStatus(old(Me().pc.delay)), old(Me().settled))
    {
      hide Interruptions, OthersMoved, Apply, Exec, Commanded, Proceed;
      Interleave();
      ghost var c := server.State();
      var r := Outcome();
      failed := !r.Done?;
      if TakesEffect(r) {
        server.count := server.count - {key};
      }
      ghost var e := Step(id, r, NotDelivered);
      Log(e);
      StepIsCommand(cfg, c, e);
      DropStep(cfg, id, c.store, At(c, id), r.Done?, NotDelivered);
    }

    method DelStatus(key: string) returns (failed: bool)
      requires Valid() && Me().pc.ReleaseStatus? && key == Me().finding.uniqueKey
      modifies this`cache, server
      ensures StandsAt(ForgetFailed(old(Me().pc.delay)), old(Me().settled))
    {
      hide Interruptions, OthersMoved, Apply, Exec, Collect, Decide, Debug;
      Interleave();
      ghost var c := server.State();
      var r := Outcome();
      failed := !r.Done?;
      if TakesEffect(r) {
        server.status := server.status - {key};
      }
      ghost var e := Step(id, r, NotDelivered);
      Log(e);
      StepIsCommand(cfg, c, e);
    }

    method GetCount(key: string) returns (failed: bool, stored: Option<int>)
      requires Valid() && Me().pc.ReadCount? && key == Me().finding.uniqueKey
      modifies this`cache, server
      ensures failed || (stored.Some? && stored.value < 0) ==> StandsAt(Idle, old(Me().settled) + [Nak])
      ensures !failed && stored.None? ==> StandsAt(ForgetMissing, old(Me().settled))
      ensures !failed && stored.Some? && 0 <= stored.value < cfg.quorumSize ==>
                StandsAt(Idle, old(Me().settled) + [NakWithDelay(RESEND_QUORUM_MSG_AFTER)])
      ensures !failed && stored.Some? && stored.value >= cfg.quorumSize ==> StandsAt(ReadStatus, old(Me().settled))
    {
      hide CountAfter, StatusAfter, DedupAfter, CoolDownKey, OthersMoved, Apply, Exec, Decide, Deliver, Debug;
      Interleave();
      ghost var c := server.State();
      var r := Outcome();
      failed := !r.Done?;
      stored := if Exists(server.count, key, server.now) then Some(server.count[key].value) else None;
      ghost var e := Step(id, r, NotDelivered);
      Log(e);
      StepIsCommand(cfg, c, e);
    }

    /** The repository's GetStatus: a missing key reads as "not_send". */
    method GetStatus(key: string) returns (failed: bool, status: string)
      requires Valid() && Me().pc.ReadStatus? && key == Me().finding.uniqueKey
      modifies this`cache, server
      ensures failed || status == SENDING ==> StandsAt(Idle, old(Me().settled) + [NakWithDelay(1_000)])
      ensures !failed && status == SENT ==> StandsAt(ForgetSent, old(Me().settled) + [Ack])
      ensures !failed && status == NOT_SEND ==> StandsAt(ReadCoolDown, old(Me().settled))
      ensures status in {SENDING, SENT, NOT_SEND}
    {
      hide CountAfter, StatusAfter, DedupAfter, CoolDownKey, OthersMoved, Apply, Exec, Collect, Deliver, Debug;
      Interleave();
      ghost var c := server.State();
      StoredStatuses(cfg, server.run);
      var r := Outcome();
      failed := !r.Done?;
      status := if Exists(server.status, key, server.now) then server.status[key].value else NOT_SEND;
      ghost var e := Step(id, r, NotDelivered);
      Log(e);
      StepIsCommand(cfg, c, e);
    }

    method ExistsCoolDown(key: string, coolDownKey: string) returns (failed: bool, active: bool)
      requires Valid() && Me().pc.ReadCoolDown?
      requires coolDownKey == CoolDownKey(cfg, Me().finding) && key == Me().finding.uniqueKey
      modifies this`cache, server
      ensures !failed && active ==> StandsAt(Idle, old(Me().settled) + [Ack])
      ensures failed || !active ==> StandsAt(Claim, old(Me().settled))
    {
      hide Interruptions, OthersMoved, Apply, Exec, Collect, Deliver, Debug;
      Interleave();
      ghost var c := server.State();
      var r := Outcome();
      failed := !r.Done?;
      active := Exists(server.coolDown, coolDownKey, server.now);
      ghost var e := Step(id, r, NotDelivered);
      Log(e);
      StepIsCommand(cfg, c, e);
    }

    /** The Lua script, which Redis runs atomically. */
    method SetSendingStatus(key: string) returns (failed: bool, claimed: bool)
      requires Valid() && Me().pc.Claim? && key == Me().finding.uniqueKey
      modifies this`cache, server
      ensures failed ==> StandsAt(Idle, old(Me().settled) + [Nak])
      ensures !failed && !claimed ==> StandsAt(Idle, old(Me().settled) + [NakWithDelay(RESEND_QUORUM_MSG_AFTER)])
      ensures !failed && claimed ==> StandsAt(Send, old(Me().settled))
    {
      hide Interruptions, OthersMoved, Apply, Exec, Commanded, Proceed;
      Interleave();
      ghost var c := server.State();
      var r := Outcome();
      failed, claimed := !r.Done?, false;
      if Exists(server.count, key, server.now) && server.count[key].value >= cfg.quorumSize {
        if !Exists(server.status, key, server.now) || server.status[key].value == NOT_SEND {
          claimed := true;
          if TakesEffect(r) {
            var table := server.status[key := Entry(SENDING, None)];
            server.status := table[key := table[key].(deadline := Some(server.now + MINS_12))];
          }
        }
      }
      ghost var e := Step(id, r, NotDelivered);
      Log(e);
      StepIsCommand(cfg, c, e);
      ClaimStep(cfg, id, c.store, At(c, id), r.Done?, NotDelivered);
    }

    method SendFinding(key: string) returns (d: Delivery)
      requires Valid() && Me().pc.Send? && key == Me().finding.uniqueKey
      modifies this`cache, server
      ensures d.Delivered? ==> StandsAt(MarkSent, old(Me().settled) + [Ack])
      ensures d.NotDelivered? ==> StandsAt(Retract(NACK_DELAY_MSG), old(Me().settled))
      ensures d.RateLimited? ==> StandsAt(Retract(d.resetAfter + 500), old(Me().settled))
    {
      hide Interruptions, OthersMoved, Apply, Exec, Collect, Decide, Debug;
      Interleave();
      ghost var c := server.State();
      d := *;
      ghost var e := Step(id, Done, d);
      Log(e);
      StepIsCommand(cfg, c, e);
    }

    method Decr(key: string) returns (failed: bool, value: int)
      requires Valid() && Me().pc.Retract? && key == Me().finding.uniqueKey
      modifies this`cache, server
      ensures !failed && value <= 0 ==> StandsAt(DropCount(old(Me().pc.delay)), old(Me().settled))
      ensures failed || value > 0 ==> StandsAt(ReleaseStatus(old(Me().pc.delay)), old(Me().settled))
    {
      hide Interruptions, OthersMoved, Apply, Exec, Commanded, Proceed;
      Interleave();
      ghost var c := server.State();
      var r := Outcome();
      failed := !r.Done?;
      value := Number(server.count, key, server.now) - 1;
      if TakesEffect(r) {
        var deadline := if Exists(server.count, key, server.now) then server.count[key].deadline else None;
        server.count := server.count[key := Entry(value, deadline)];
      }
      ghost var e := Step(id, r, NotDelivered);
      Log(e);
      StepIsCommand(cfg, c, e);
      RetractStep(cfg, id, c.store, At(c, id), r.Done?, NotDelivered);
    }

    method SetStatusSent(key: string) returns (failed: bool)
      requires Valid() && Me().pc.MarkSent? && key == Me().finding.uniqueKey
      modifies this`cache, server
      ensures StandsAt(SetCoolDown, old(Me().settled))
    {
      hide Interruptions, OthersMoved, Apply, Exec, Collect, Decide, Debug;
      Interleave();
      ghost var c := server.State();
      var r := Outcome();
      failed := !r.Done?;
      if TakesEffect(r) {
        server.status := server.status[key := Entry(SENT, Some(server.now + MINS_10))];
      }
      ghost var e := Step(id, r, NotDelivered);
      Log(e);
      StepIsCommand(cfg, c, e);
    }

    method StartCoolDown(key: string, coolDownKey: string) returns (failed: bool)
      requires Valid() && Me().pc.SetCoolDown?
      requires coolDownKey == CoolDownKey(cfg, Me().finding) && key == Me().finding.uniqueKey
      modifies this`cache, server
      ensures StandsAt(Idle, old(Me().settled))
    {
      hide Interruptions, OthersMoved, Apply, Exec, Collect, Decide, Debug;
      Interleave();
      ghost var c := server.State();
      var r := Outcome();
      failed := !r.Done?;
      if TakesEffect(r) {
        server.coolDown := server.coolDown[coolDownKey := Entry("", Some(server.now + MINS_30))];
      }
      ghost var e := Step(id, r, NotDelivered);
      Log(e);
      StepIsCommand(cfg, c, e);
    }

    // ----- the commands of the path without quorum -----

    method SetDedup(key: string) returns (failed: bool, created: bool)
      requires Valid() && Me().pc.SetDedup? && key == Me().finding.uniqueKey
      modifies this`cache, server
      ensures failed ==> StandsAt(Idle, old(Me().settled) + [Nak])
      ensures !failed && !created ==> StandsAt(Idle, old(Me().settled) + [Ack])
      ensures !failed && created ==> StandsAt(SendDebug, old(Me().settled))
    {
      hide CountAfter, StatusAfter, CoolDownKey, OthersMoved, Apply, Exec, Collect, Decide, Deliver;
      Interleave();
      ghost var c := server.State();
      var r := Outcome();
      failed, created := !r.Done?, !Exists(server.dedup, (id, key), server.now);
      if TakesEffect(r) && created {
        server.dedup := server.dedup[(id, key) := Entry("1", Some(server.now + MINS_15))];
      }
      ghost var e := Step(id, r, NotDelivered);
      Log(e);
      StepIsCommand(cfg, c, e);
    }

    method SendDebugFinding(key: string) returns (d: Delivery)
      requires Valid() && Me().pc.SendDebug? && key == Me().finding.uniqueKey
      modifies this`cache, server
      ensures d.Delivered? ==> StandsAt(Idle, old(Me().settled) + [Ack])
      ensures d.NotDelivered? ==> StandsAt(DropDedup(NACK_DELAY_MSG), old(Me().settled))
      ensures d.RateLimited? ==> StandsAt(DropDedup(d.resetAfter + 500), old(Me().settled))
    {
      hide Interruptions, OthersMoved, Apply, Exec, Collect, Decide, Deliver;
      Interleave();
      ghost var c := server.State();
      d := *;
      ghost var e := Step(id, Done, d);
      Log(e);
      StepIsCommand(cfg, c, e);
    }

    method DelDedup(key: string) returns (failed: bool)
      requires Valid() && Me().pc.DropDedup? && key == Me().finding.uniqueKey
      modifies this`cache, server
      ensures StandsAt(Idle, old(Me().settled) + [NakWithDelay(old(Me().pc.delay))])
    {
      hide Interruptions, OthersMoved, Apply, Exec, Collect, Decide, Deliver;
      Interleave();
      ghost var c := server.State();
      var r := Outcome();
      failed := !r.Done?;
      if TakesEffect(r) {
        server.dedup := server.dedup - {(id, key)};
      }
      ghost var e := Step(id, r, NotDelivered);
      Log(e);
      StepIsCommand(cfg, c, e);
    }

    // ----- the handler -----

    /** The path of a consumer without quorum: deduplicated debug sends. */
    method HandleWithoutQuorum(f: Finding)
      requires Valid() && Me().pc.SetDedup? && Me().finding == f && Me().settled == []
      modifies this`cache, this`settled, server
      ensures Valid() && Me().pc.Idle? && old(server.run) <= server.run && Interrupted() == old(Interrupted())
      ensures |Me().settled| == 1 && settled == old(settled) + Me().settled
    {
      hide Valid, Me, Interrupted, Apply, Exec;
      var failed, created := SetDedup(f.uniqueKey);
      if failed {
        Settle(Nak);
        return;
      }
      if !created {
        Settle(Ack);
        return;
      }
      var d := SendDebugFinding(f.uniqueKey);
      if !d.Delivered? {
        failed := DelDedup(f.uniqueKey);
        if d.RateLimited? {
          Settle(NakWithDelay(d.resetAfter + 500));
          return;
        }
        Settle(NakWithDelay(NACK_DELAY_MSG));
        return;
      }
      Settle(Ack);
    }

    /** The first EXPIRE of a new counter; without it the counter must not stay. */
    method GiveLifetime(f: Finding)
      requires Valid() && Me().pc.SetCountTtl? && Me().finding == f && Me().settled == []
      modifies this`cache, this`settled, server
      ensures Valid() && Me().pc.Idle? && old(server.run) <= server.run && Interrupted() == old(Interrupted())
      ensures Me().finding == f
      ensures |Me().settled| == 1 && settled == old(settled) + Me().settled
    {
      hide Valid, Me, Interrupted, Apply, Exec;
      var failed := ExpireCount(f.uniqueKey, MINS_10);
      if failed {
        CacheRemove(f.uniqueKey);
        failed := DelCount(f.uniqueKey);
      }
      Settle(Nak);
    }

    /** Counts the finding once per instance; done means the message is settled. */
    method CollectQuorumCount(f: Finding) returns (count: nat, done: bool)
      requires Valid() && Me().pc.Lookup? && Me().finding == f && Me().settled == []
      modifies this`cache, this`settled, server
      ensures Valid() && old(server.run) <= server.run && Interrupted() == old(Interrupted()) && Me().finding == f
      ensures done ==> Me().pc.Idle? && |Me().settled| == 1 && settled == old(settled) + Me().settled
      ensures !done ==> settled == old(settled)
      ensures !done && count >= cfg.quorumSize ==> Me().pc.ReadStatus? && Me().settled == []
      ensures !done && count < cfg.quorumSize ==>
                Me().pc.Idle? && Me().settled == [NakWithDelay(RESEND_QUORUM_MSG_AFTER)]
    {
      hide Valid, Me, Interrupted, Apply, Exec;
      var seen := CacheContains(f.uniqueKey);
      if !seen {
        var failed, incremented := Incr(f.uniqueKey);
        if failed {
          Settle(Nak);
          return 0, true;
        }
        CacheRemember(f.uniqueKey, incremented);
        count := AsUint64(incremented);
        if count == 1 {
          GiveLifetime(f);
          return 0, true;
        }
        return count, false;
      }
      CacheTouch(f.uniqueKey);
      var failed, stored := GetCount(f.uniqueKey);
      if failed || (stored.Some? && stored.value < 0) {
        Settle(Nak);
        return 0, true;
      }
      if stored.None? {
        CacheRemove(f.uniqueKey);
        Settle(Ack);
        return 0, true;
      }
      return stored.value, false;
    }

    /** Undoes a claim whose send failed, and puts the message back. */
    method RollBack(f: Finding, d: Delivery)
      requires Valid() && !d.Delivered? && Me().finding == f && Me().settled == []
      requires Me().pc == Retract(if d.RateLimited? then d.resetAfter + 500 else NACK_DELAY_MSG)
      modifies this`cache, this`settled, server
      ensures Valid() && Me().pc.Idle? && old(server.run) <= server.run && Interrupted() == old(Interrupted())
      ensures |Me().settled| == 1 && settled == old(settled) + Me().settled
    {
      hide Valid, Me, Interrupted, Apply, Exec;
      var failed, quorumKeyCount := Decr(f.uniqueKey);
      if !failed && quorumKeyCount <= 0 {
        failed := DelCount(f.uniqueKey);
      }
      failed := DelStatus(f.uniqueKey);
      CacheRemove(f.uniqueKey);
      if d.RateLimited? {
        Settle(NakWithDelay(d.resetAfter + 500));
        return;
      }
      Settle(NakWithDelay(NACK_DELAY_MSG));
    }

    /** A finding nobody has sent: check the cool-down, claim the send, send. */
    method ClaimAndSend(f: Finding)
      requires Valid() && Me().pc.ReadCoolDown? && Me().finding == f && Me().settled == []
      modifies this`cache, this`settled, server
      ensures Valid() && Me().pc.Idle? && old(server.run) <= server.run && Interrupted() == old(Interrupted())
      ensures |Me().settled| == 1 && settled == old(settled) + Me().settled
    {
      hide Valid, Me, Interrupted, Apply, Exec;
      var failed, active := ExistsCoolDown(f.uniqueKey, CoolDownKey(cfg, f));
      if !failed && active {
        Settle(Ack);
        return;
      }
      var readyToSend;
      failed, readyToSend := SetSendingStatus(f.uniqueKey);
      if failed {
        Settle(Nak);
        return;
      }
      if !readyToSend {
        Settle(NakWithDelay(RESEND_QUORUM_MSG_AFTER));
        return;
      }
      var d := SendFinding(f.uniqueKey);
      if !d.Delivered? {
        RollBack(f, d);
        return;
      }
      Settle(Ack);
      failed := SetStatusSent(f.uniqueKey);
      failed := StartCoolDown(f.uniqueKey, CoolDownKey(cfg, f));
    }

    /** A finding whose quorum was collected. */
    method HandleQuorum(f: Finding)
      requires Valid() && Me().pc.ReadStatus? && Me().finding == f && Me().settled == []
      modifies this`cache, this`settled, server
      ensures Valid() && Me().pc.Idle? && old(server.run) <= server.run && Interrupted() == old(Interrupted())
      ensures |Me().settled| == 1 && settled == old(settled) + Me().settled
    {
      hide Valid, Me, Interrupted, Apply, Exec;
      var failed, status := GetStatus(f.uniqueKey);
      if failed {
        Settle(NakWithDelay(1_000));
        return;
      }
      if status == SENDING {
        Settle(NakWithDelay(1_000));
        return;
      }
      if status == SENT {
        Settle(Ack);
        CacheRemove(f.uniqueKey);
        failed := ExpireCount(f.uniqueKey, MIN_1);
        failed := ExpireStatus(f.uniqueKey, MIN_1);
        return;
      }
      if status == NOT_SEND {
        ClaimAndSend(f);
      }
    }

    /** The handler after the delivery: parsing, filters, quorum. */
    method Dispatch(msg: Message, ghost l: Local, ghost now: nat)
      requires Valid() && l.pc.Idle? && Me() == Begin(cfg, l, now, msg)
      modifies this`cache, this`settled, server
      ensures Valid() && Me().pc.Idle? && old(server.run) <= server.run && Interrupted() == old(Interrupted())
      ensures |Me().settled| == 1 && settled == old(settled) + Me().settled
      ensures msg.Broken? ==> settled == old(settled) + [Term] && server.run == old(server.run)
      ensures msg.Parsed? && !Wanted(cfg, msg.finding) ==>
                settled == old(settled) + [Ack] && server.run == old(server.run)
    {
      hide Valid, Me, Interrupted, Apply, Exec;
      match msg
      case Broken =>
        Settle(Term);
      case Parsed(f) =>
        if f.severity !in cfg.severitySet {
          Settle(Ack);
          return;
        }
        if cfg.findingFilter != {} {
          if f.alertId !in cfg.findingFilter {
            Settle(Ack);
            return;
          }
        }
        if !cfg.byQuorum {
          HandleWithoutQuorum(f);
          return;
        }
        var count, done := CollectQuorumCount(f);
        if done {
          return;
        }
        if count < cfg.quorumSize {
          Settle(NakWithDelay(RESEND_QUORUM_MSG_AFTER));
          return;
        }
        HandleQuorum(f);
    }

    /**
     The message handler. Whatever other instances do meanwhile, its execution is one
     delivery of the message and then this call's operations, and nothing else of this
     instance, in the continuation of a run; the shared Redis is that run's, and the
     message is settled exactly once, as the run says. A broken message is terminated
     and an unwanted finding acknowledged without any operation.
     */
    method Consume(msg: Message)
      requires Valid() && Me().pc.Idle? && Loggable(cfg, msg)
      modifies this`cache, this`settled, server
      ensures Valid() && Me().pc.Idle?
      ensures OneCall(old(server.run), server.run, id, msg)
      ensures |Me().settled| == 1 && settled == old(settled) + Me().settled
      ensures msg.Broken? ==> settled == old(settled) + [Term] && NoOwnStep(old(server.run), server.run, id)
      ensures msg.Parsed? && !Wanted(cfg, msg.finding) ==>
                settled == old(settled) + [Ack] && NoOwnStep(old(server.run), server.run, id)
    {
      hide Exec, Interruptions;
      Interleave();
      ghost var c, m := server.State(), |server.run|;
      Log(Receive(id, msg));
      ApplyStore(cfg, c, Receive(id, msg));
      ghost var started := server.run;
      Dispatch(msg, At(c, id), c.store.now);
      assert server.run[..m + 1] == started;
      OnlySteps(server.run, m + 1, id);
      assert forall x | |old(server.run)| <= x < m :: server.run[x] == started[x];
      assert CallFrom(old(server.run), server.run, m, id, msg);
    }
  }
}
