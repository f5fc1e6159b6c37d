/**
 The quorum delivery protocol of one NATS consumer: any number of forwarder
 instances share Redis, each has its own LRU of counted findings, and each runs
 the message handler one Redis command or one cache operation at a time.

 A run is a sequence of labels, and `Exec` gives the state it leads to. A label
 that is not enabled leaves the state unchanged, so every sequence is a run.
 */
module QuorumModel {
  import opened GoInts
  import opened Redis

  type Instance = nat

  const MIN_1 := 60_000
  const MINS_10 := 600_000
  const MINS_12 := 720_000
  const MINS_15 := 900_000
  const MINS_30 := 1_800_000
  const RESEND_QUORUM_MSG_AFTER := 5_000
  const NACK_DELAY_MSG := 3_000

  const NOT_SEND := "not_send"
  const SENDING := "sending"
  const SENT := "sent"

  /** The parts of a consumer the handler reads. */
  datatype Config = Config(
    name: string,
    quorumSize: nat,
    byQuorum: bool,
    severitySet: set<string>,
    findingFilter: set<string>)

  datatype Finding = Finding(
    uniqueKey: string,
    botName: string,
    alertId: string,
    description: string,
    severity: string)

  datatype Message = Broken | Parsed(finding: Finding)

  /** SHA-256 is taken to be injective, so the description stands for its hash. */
  function CoolDownKey(cfg: Config, f: Finding): string {
    f.botName + "_" + f.alertId + "_" + f.description + "_" + cfg.name
  }

  function CountKey(name: string, key: string): string {
    name + ":finding:" + key + ":count"
  }

  function StatusKey(name: string, key: string): string {
    name + ":finding:" + key + ":status"
  }

  datatype Settlement = Ack | Nak | NakWithDelay(ms: nat) | Term

  /** Outcome of a Redis command. A failed one may still have taken effect, with its reply lost. */
  datatype Reply = Done | Failed(applied: bool)

  datatype Delivery = Delivered | NotDelivered | RateLimited(resetAfter: nat)

  /** Where a handler call stands: the next command or cache operation it issues. */
  datatype Pc =
    | Idle
    | Lookup | Touch | Increment | Remember(n: int)
    | SetCountTtl | ForgetUnexpirable | DropUnexpirable
    | ReadCount | ForgetMissing
    | ReadStatus
    | ForgetSent | ShortenCount | ShortenStatus
    | ReadCoolDown | Claim | Send
    | Retract(delay: nat) | DropCount(delay: nat) | ReleaseStatus(delay: nat) | ForgetFailed(delay: nat)
    | MarkSent | SetCoolDown
    | SetDedup | SendDebug | DropDedup(delay: nat)

  /** One instance: its current call, its LRU, and what it settled during this call. */
  datatype Local = Local(
    pc: Pc,
    finding: Finding,
    start: nat,
    cache: set<string>,
    settled: seq<Settlement>)

  const NO_FINDING := Finding("", "", "", "", "")
  const FRESH := Local(Idle, NO_FINDING, 0, {}, [])

  /** The shared Redis. Count, status and debug keys are indexed by unique key. */
  datatype Store = Store(
    now: nat,
    count: Table<string, int>,
    status: Table<string, string>,
    coolDown: Table<string, string>,
    dedup: Table<(Instance, string), string>)

  /** A send that the notification channel accepted, or an acknowledgement of a quorum finding. */
  datatype Record = Record(time: nat, instance: Instance, key: string, coolDownKey: string)

  /**
   The whole system. `sends`, `acks` and `debugSends` only grow. `credit[k]` is the set of
   instances whose INCR is still in the current incarnation of the count key, and
   `leaks[k]` counts the increments of this incarnation nobody can take back.
   */
  datatype Cluster = Cluster(
    store: Store,
    locals: map<Instance, Local>,
    sends: seq<Record>,
    acks: seq<Record>,
    debugSends: seq<Record>,
    credit: map<string, set<Instance>>,
    leaks: map<string, nat>)

  datatype Label =
    | Receive(to: Instance, msg: Message)
    | Step(who: Instance, reply: Reply, delivery: Delivery)
    | Tick(ms: nat)
    | Evict(owner: Instance, key: string)
    | Crash(victim: Instance)

  const INIT := Cluster(Store(0, map[], map[], map[], map[]), map[], [], [], [], map[], map[])

  function At(c: Cluster, i: Instance): Local {
    if i in c.locals then c.locals[i] else FRESH
  }

  function Credit(c: Cluster, k: string): set<Instance> {
    if k in c.credit then c.credit[k] else {}
  }

  function Leaks(c: Cluster, k: string): nat {
    if k in c.leaks then c.leaks[k] else 0
  }

  // ----- one handler step: the command it issues -----

  predicate TakesEffect(r: Reply) {
    r.Done? || r.applied
  }

  /** Whether INCR changes the counter: Redis refuses to overflow a 64-bit integer. */
  predicate Increments(st: Store, k: string) {
    Number(st.count, k, st.now) < INT64_MAX
  }

  /** Whether the Lua script claims the send. */
  predicate Claimable(cfg: Config, st: Store, k: string) {
    && Exists(st.count, k, st.now) && st.count[k].value >= cfg.quorumSize
    && (Exists(st.status, k, st.now) ==> st.status[k].value == NOT_SEND)
  }

  /** The Lua script: compare the counter, claim the status and give it a lifetime, atomically. */
  function ClaimScript(cfg: Config, st: Store, k: string): Table<string, string> {
    if Claimable(cfg, st, k)
    then Expire(SetForever(st.status, k, SENDING), k, st.now, MINS_12)
    else st.status
  }

  function CountAfter(st: Store, pc: Pc, k: string): Table<string, int> {
    match pc
    case Increment => if Increments(st, k) then Add(st.count, k, st.now, 1) else st.count
    case SetCountTtl => Expire(st.count, k, st.now, MINS_10)
    case ShortenCount => Expire(st.count, k, st.now, MIN_1)
    case Retract(_) => Add(st.count, k, st.now, -1)
    case DropUnexpirable | DropCount(_) => Del(st.count, k)
    case _ => st.count
  }

  function StatusAfter(cfg: Config, st: Store, pc: Pc, k: string): Table<string, string> {
    match pc
    case ShortenStatus => Expire(st.status, k, st.now, MIN_1)
    case Claim => ClaimScript(cfg, st, k)
    case ReleaseStatus(_) => Del(st.status, k)
    case MarkSent => SetFor(st.status, k, SENT, st.now, MINS_10)
    case _ => st.status
  }

  /** The debug path's key names the instance, so each instance has its own. */
  function DedupAfter(st: Store, pc: Pc, k: (Instance, string)): Table<(Instance, string), string> {
    match pc
    case SetDedup => if Exists(st.dedup, k, st.now) then st.dedup else SetFor(st.dedup, k, "1", st.now, MINS_15)
    case DropDedup(_) => Del(st.dedup, k)
    case _ => st.dedup
  }

  /** Redis after the command that a handler at this point issues; a cache operation issues none. */
  function Issue(cfg: Config, i: Instance, st: Store, l: Local): Store {
    var k := l.finding.uniqueKey;
    Store(
      st.now,
      CountAfter(st, l.pc, k),
      StatusAfter(cfg, st, l.pc, k),
      if l.pc.SetCoolDown? then SetFor(st.coolDown, CoolDownKey(cfg, l.finding), "", st.now, MINS_30) else st.coolDown,
      DedupAfter(st, l.pc, (i, k)))
  }

  // ----- one handler step: what the call does with the reply -----

  function Finish(l: Local, s: Settlement): Local {
    l.(pc := Idle, settled := l.settled + [s])
  }

  function CompareWithQuorum(cfg: Config, l: Local, count: nat): Local {
    if count < cfg.quorumSize
    then Finish(l, NakWithDelay(RESEND_QUORUM_MSG_AFTER))
    else l.(pc := ReadStatus)
  }

  /** The severity and alert filters. */
  predicate Filtered(cfg: Config, f: Finding) {
    f.severity !in cfg.severitySet || (cfg.findingFilter != {} && f.alertId !in cfg.findingFilter)
  }

  /** The handler up to its first command: parsing and the severity and alert filters. */
  function Begin(cfg: Config, l: Local, now: nat, msg: Message): Local {
    match msg
    case Broken => l.(start := now, settled := [Term])
    case Parsed(f) =>
      var l' := l.(finding := f, start := now, settled := []);
      if Filtered(cfg, f) then Finish(l', Ack)
      else l'.(pc := if cfg.byQuorum then Lookup else SetDedup)
  }

  predicate Collecting(pc: Pc) {
    pc.Lookup? || pc.Touch? || pc.Increment? || pc.Remember? || pc.SetCountTtl? || pc.ForgetUnexpirable?
    || pc.DropUnexpirable? || pc.ReadCount? || pc.ForgetMissing?
  }

  /** collectQuorumCount, and the comparison with the quorum that follows it. */
  function Collect(cfg: Config, st: Store, l: Local, ok: bool): Local
    requires Collecting(l.pc)
  {
    var k := l.finding.uniqueKey;
    match l.pc
    case Lookup => l.(pc := if k in l.cache then Touch else Increment)
    case Touch => l.(cache := l.cache + {k}, pc := ReadCount)
    case Increment =>
      if ok && Increments(st, k) then l.(pc := Remember(Number(st.count, k, st.now) + 1)) else Finish(l, Nak)
    case Remember(n) =>
      var l' := l.(cache := l.cache + {k});
      if AsUint64(n) == 1 then l'.(pc := SetCountTtl) else CompareWithQuorum(cfg, l', AsUint64(n))
    case SetCountTtl => if ok then Finish(l, Nak) else l.(pc := ForgetUnexpirable)
    case ForgetUnexpirable => l.(cache := l.cache - {k}, pc := DropUnexpirable)
    case DropUnexpirable => Finish(l, Nak)
    case ReadCount =>
      if !ok then Finish(l, Nak)
      else if !Exists(st.count, k, st.now) then l.(pc := ForgetMissing)
      else if st.count[k].value < 0 then Finish(l, Nak) // does not parse as an unsigned number
      else CompareWithQuorum(cfg, l, st.count[k].value)
    case ForgetMissing => Finish(l.(cache := l.cache - {k}), Ack)
  }

  predicate Deciding(pc: Pc) {
    pc.ReadStatus? || pc.ForgetSent? || pc.ShortenCount? || pc.ShortenStatus? || pc.ReadCoolDown? || pc.Claim?
  }

  /** The handler from GetStatus to SetSendingStatus. */
  function Decide(cfg: Config, st: Store, l: Local, ok: bool): Local
    requires Deciding(l.pc)
  {
    var k := l.finding.uniqueKey;
    match l.pc
    case ReadStatus =>
      var status := if Exists(st.status, k, st.now) then st.status[k].value else NOT_SEND;
      if !ok then Finish(l, NakWithDelay(1_000))
      else if status == SENDING then Finish(l, NakWithDelay(1_000))
      else if status == SENT then Finish(l, Ack).(pc := ForgetSent)
      else if status == NOT_SEND then l.(pc := ReadCoolDown)
      else l.(pc := Idle) // no branch of the handler settles such a message
    case ForgetSent => l.(cache := l.cache - {k}, pc := ShortenCount)
    case ShortenCount => l.(pc := ShortenStatus)
    case ShortenStatus => l.(pc := Idle)
    case ReadCoolDown => // an error counts as "no cool-down"
      if ok && Exists(st.coolDown, CoolDownKey(cfg, l.finding), st.now) then Finish(l, Ack) else l.(pc := Claim)
    case Claim =>
      if !ok then Finish(l, Nak)
      else if Claimable(cfg, st, k) then l.(pc := Send)
      else Finish(l, NakWithDelay(RESEND_QUORUM_MSG_AFTER))
  }

  predicate Sending(pc: Pc) {
    pc.Send? || pc.Retract? || pc.DropCount? || pc.ReleaseStatus? || pc.ForgetFailed? || pc.MarkSent?
    || pc.SetCoolDown?
  }

  /** SendFinding, the rollback of a failed send and the bookkeeping of a successful one. */
  function Deliver(st: Store, l: Local, ok: bool, d: Delivery): Local
    requires Sending(l.pc)
  {
    var k := l.finding.uniqueKey;
    match l.pc
    case Send =>
      (match d
       case Delivered => Finish(l, Ack).(pc := MarkSent)
       case NotDelivered => l.(pc := Retract(NACK_DELAY_MSG))
       case RateLimited(resetAfter) => l.(pc := Retract(resetAfter + 500)))
    case Retract(delay) =>
      l.(pc := if ok && Number(st.count, k, st.now) - 1 <= 0 then DropCount(delay) else ReleaseStatus(delay))
    case DropCount(delay) => l.(pc := ReleaseStatus(delay))
    case ReleaseStatus(delay) => l.(pc := ForgetFailed(delay))
    case ForgetFailed(delay) => Finish(l.(cache := l.cache - {k}), NakWithDelay(delay))
    case MarkSent => l.(pc := SetCoolDown)
    case SetCoolDown => l.(pc := Idle)
  }

  predicate Debugging(pc: Pc) {
    pc.SetDedup? || pc.SendDebug? || pc.DropDedup?
  }

  /** handleWithoutQuorum. */
  function Debug(i: Instance, st: Store, l: Local, ok: bool, d: Delivery): Local
    requires Debugging(l.pc)
  {
    match l.pc
    case SetDedup =>
      if !ok then Finish(l, Nak)
      else if Exists(st.dedup, (i, l.finding.uniqueKey), st.now) then Finish(l, Ack)
      else l.(pc := SendDebug)
    case SendDebug =>
      (match d
       case Delivered => Finish(l, Ack)
       case NotDelivered => l.(pc := DropDedup(NACK_DELAY_MSG))
       case RateLimited(resetAfter) => l.(pc := DropDedup(resetAfter + 500)))
    case DropDedup(delay) => Finish(l, NakWithDelay(delay))
  }

  function Proceed(cfg: Config, i: Instance, st: Store, l: Local, ok: bool, d: Delivery): Local
    requires !l.pc.Idle?
  {
    if Collecting(l.pc) then Collect(cfg, st, l, ok)
    else if Deciding(l.pc) then Decide(cfg, st, l, ok)
    else if Sending(l.pc) then Deliver(st, l, ok, d)
    else Debug(i, st, l, ok, d)
  }

  // ----- the accounting of increments -----

  predicate Forgets(pc: Pc) {
    pc.ForgetUnexpirable? || pc.ForgetMissing? || pc.ForgetSent? || pc.ForgetFailed?
  }

  /** Credit of key k after a handler step of instance i on that key. */
  function CreditAfter(c: Cluster, i: Instance, k: string, r: Reply): set<Instance> {
    var pc := At(c, i).pc;
    var before := if Exists(c.store.count, k, c.store.now) then Credit(c, k) else {};
    if pc.Increment? && Increments(c.store, k) && TakesEffect(r) then (if r.Done? then before + {i} else before)
    else if pc.Retract? && TakesEffect(r) then before - {i}
    else if Forgets(pc) then Credit(c, k) - {i}
    else Credit(c, k)
  }

  /** Dropping a cache entry while its increment is still counted is a leak. */
  function LeaksAfterDrop(c: Cluster, i: Instance, k: string): nat {
    Leaks(c, k) + if i in Credit(c, k) && Exists(c.store.count, k, c.store.now) then 1 else 0
  }

  function LeaksAfter(c: Cluster, i: Instance, k: string, r: Reply): nat {
    var pc := At(c, i).pc;
    var before := if Exists(c.store.count, k, c.store.now) then Leaks(c, k) else 0;
    if pc.Increment? && Increments(c.store, k) && TakesEffect(r) then (if r.Done? then before else before + 1)
    else if pc.Retract? && TakesEffect(r) then before
    else if Forgets(pc) then LeaksAfterDrop(c, i, k)
    else Leaks(c, k)
  }

  // ----- the transition system -----

  function RecordOf(cfg: Config, c: Cluster, i: Instance): Record {
    Record(c.store.now, i, At(c, i).finding.uniqueKey, CoolDownKey(cfg, At(c, i).finding))
  }

  function ApplyStep(cfg: Config, c: Cluster, i: Instance, r: Reply, d: Delivery): Cluster
    requires !At(c, i).pc.Idle?
  {
    var l := At(c, i);
    var k := l.finding.uniqueKey;
    var l' := Proceed(cfg, i, c.store, l, r.Done?, d);
    var entry := RecordOf(cfg, c, i);
    Cluster(
      if TakesEffect(r) then Issue(cfg, i, c.store, l) else c.store,
      c.locals[i := l'],
      if l.pc.Send? && d.Delivered? then c.sends + [entry] else c.sends,
      if !Debugging(l.pc) && l'.settled == l.settled + [Ack] then c.acks + [entry] else c.acks,
      if l.pc.SendDebug? && d.Delivered? then c.debugSends + [entry] else c.debugSends,
      c.credit[k := CreditAfter(c, i, k, r)],
      c.leaks[k := LeaksAfter(c, i, k, r)])
  }

  function Drop(c: Cluster, i: Instance, k: string): Cluster {
    c.(locals := c.locals[i := At(c, i).(cache := At(c, i).cache - {k})],
       credit := c.credit[k := Credit(c, k) - {i}],
       leaks := c.leaks[k := LeaksAfterDrop(c, i, k)])
  }

  /** A crash loses the call, the LRU and every chance to take an increment back. */
  function Restart(c: Cluster, i: Instance): Cluster {
    c.(locals := c.locals[i := FRESH],
       credit := map k | k in c.credit :: c.credit[k] - {i},
       leaks := map k | k in c.credit.Keys + c.leaks.Keys :: LeaksAfterDrop(c, i, k))
  }

  /** On the way to the quorum a log line slices the first and last four bytes of the unique key. */
  predicate Loggable(cfg: Config, msg: Message) {
    msg.Parsed? && cfg.byQuorum && !Filtered(cfg, msg.finding) ==> |msg.finding.uniqueKey| >= 4
  }

  function Apply(cfg: Config, c: Cluster, e: Label): Cluster {
    match e
    case Receive(i, msg) =>
      if At(c, i).pc.Idle? && Loggable(cfg, msg)
      then c.(locals := c.locals[i := Begin(cfg, At(c, i), c.store.now, msg)]) else c
    case Step(i, r, d) => if At(c, i).pc.Idle? then c else ApplyStep(cfg, c, i, r, d)
    case Tick(ms) => c.(store := c.store.(now := c.store.now + ms))
    case Evict(i, k) => if k in At(c, i).cache then Drop(c, i, k) else c
    case Crash(i) => Restart(c, i)
  }

  function Exec(cfg: Config, run: seq<Label>): Cluster {
    if run == [] then INIT else Apply(cfg, Exec(cfg, run[..|run| - 1]), run[|run| - 1])
  }

  // ----- what a run may be assumed to satisfy -----

  /** Every call in progress started less than a minute ago. */
  ghost predicate Prompt(c: Cluster) {
    forall i :: !At(c, i).pc.Idle? ==> c.store.now < At(c, i).start + MIN_1
  }

  ghost predicate PromptRun(cfg: Config, run: seq<Label>) {
    Prompt(Exec(cfg, run)) && (run != [] ==> PromptRun(cfg, run[..|run| - 1]))
  }
}
