/**
 The feeder's loop over any sequence of ticks: which heights it handles, when it
 starts a recovery, and how it arms its timer.
 */
module FeederRun {
  import opened Wrappers
  import opened Chain
  import opened FeederBlocks
  import opened FeederRecovery

  /**
   One firing of the timer: what the node and the publisher answer, and the
   wall clock (in milliseconds) where the loop reads it.
   */
  datatype Tick = Tick(
    latest: Answer<Option<Block>>,
    byNumber: Answer<Option<Block>>,
    receipts: Answer<seq<Receipt>>,
    publish: PublishResult,
    recovery: Recovery,
    fetchedAt: int,
    publishedAt: int,
    armedAt: int)

  /** The loop's variables; prev is -1 when the next block to publish is the latest one. */
  datatype LoopState = LoopState(prev: int, fetchStart: Option<int>)

  const START := LoopState(-1, None)

  /** The delay until the next block is due, at least a second. */
  function NextDelay(b: Block, now: int): int {
    var d := b.timestamp * 1000 + ETA_NEXT_BLOCK + DELAY_NEXT_BLOCK - now;
    if d > 1_000 then d else 1_000
  }

  /** What one tick did: `fetched` and `recovering` say which calls succeeded and were made. */
  datatype Turn = Turn(
    state: LoopState, delay: int, handled: seq<int>, published: seq<BlockDto>, fetched: bool, recovering: bool)

  function Retry(s: LoopState, fetched: bool): Turn {
    Turn(s, RETRY_TICK, [], [], fetched, false)
  }

  function Heights(blocks: seq<Block>): (r: seq<int>)
    ensures |r| == |blocks| && forall n | 0 <= n < |r| :: r[n] == blocks[n].number
  {
    seq(|blocks|, n requires 0 <= n < |blocks| => blocks[n].number)
  }

  function ArmIfUnset(start: Option<int>, now: int): Option<int> {
    if start.None? then Some(now) else start
  }

  /** A fetched block: its receipts, and its publication. */
  function PublishTurn(s: LoopState, b: Block, t: Tick, fetched: bool): Turn {
    if b.number == s.prev || t.receipts.Failed? then Retry(s, fetched)
    else match t.publish
      case Published =>
        Turn(s.(prev := b.number), NextDelay(b, t.armedAt), [b.number], [BlockDtoOf(b, t.receipts.value)],
             fetched, false)
      case Oversized => Turn(s.(prev := b.number), NextDelay(b, t.armedAt), [b.number], [], fetched, false)
      case Rejected => Retry(s.(fetchStart := ArmIfUnset(s.fetchStart, t.publishedAt)), fetched)
  }

  /** The recovery that ends a long series of failed fetches. */
  function RecoveryTurn(s: LoopState, t: Tick): Turn {
    var ranges := Gap(s.prev, t.recovery);
    var blocks, dtos := RecoveredBy(|ranges|, t.recovery), DtosBy(|ranges|, t.recovery);
    match LastOf(blocks)
    case None => Turn(LoopState(-1, None), RETRY_TICK, [], dtos, false, true)
    case Some(last) =>
      Turn(LoopState(last.number, None), NextDelay(last, t.armedAt), Heights(blocks), dtos, false, true)
  }

  function TurnOf(s: LoopState, t: Tick): Turn {
    if s.prev == -1 then
      match t.latest
      case Failed(_) => Retry(s, false)
      case Got(None) => Retry(s, false)
      case Got(Some(b)) => PublishTurn(s, b, t, false)
    else
      match t.byNumber
      case Failed(empty) =>
        var armed := s.(fetchStart := ArmIfUnset(s.fetchStart, t.fetchedAt));
        if !empty && t.fetchedAt - armed.fetchStart.value > RECOVERY_WINDOW then RecoveryTurn(s, t)
        else Retry(armed, false)
      case Got(None) => Retry(s.(fetchStart := None), true)
      case Got(Some(b)) => PublishTurn(s.(fetchStart := None), b, t, true)
  }

  // ----- the loop itself -----

  /** The one-shot timer: the delays it was set to during one tick. */
  class Timer {
    var armed: seq<int>

    constructor ()
      ensures armed == []
    {
      armed := [];
    }

    method Reset(ms: int)
      modifies this
      ensures armed == old(armed) + [ms]
    {
      armed := armed + [ms];
    }
  }

  class Feeder {
    var prevBlockNumber: int
    var fetchStartTime: Option<int>
    var published: seq<BlockDto>
    const timer: Timer

    constructor ()
      ensures State() == START && published == [] && fresh(timer) && timer.armed == []
    {
      prevBlockNumber, fetchStartTime, published := -1, None, [];
      timer := new Timer();
    }

    function State(): LoopState
      reads this
    {
      LoopState(prevBlockNumber, fetchStartTime)
    }

    method UpdateTickerAfterBlock(b: Block, now: int)
      modifies timer
      ensures timer.armed == old(timer.armed) + [NextDelay(b, now)]
    {
      var expectedNextBlockTime := b.timestamp * 1000 + ETA_NEXT_BLOCK;
      var delay := expectedNextBlockTime + DELAY_NEXT_BLOCK - now;
      if delay < 1_000 {
        delay := 1_000;
      }
      timer.Reset(delay);
    }

    /** One firing of the timer. */
    method OnTick(t: Tick)
      requires InRange(prevBlockNumber, t.recovery)
      modifies this, timer
      ensures State() == TurnOf(old(State()), t).state
      ensures published == old(published) + TurnOf(old(State()), t).published
      ensures timer.armed == old(timer.armed) + [TurnOf(old(State()), t).delay]
    {
      var fetchedBlock: Option<Block>;
      if prevBlockNumber == -1 {
        if t.latest.Failed? {
          timer.Reset(RETRY_TICK);
          return;
        }
        fetchedBlock := t.latest.value;
      } else {
        if t.byNumber.Failed? {
          if fetchStartTime.None? {
            fetchStartTime := Some(t.fetchedAt);
          }
          if t.byNumber.empty {
            timer.Reset(RETRY_TICK);
            return;
          }
          if t.fetchedAt - fetchStartTime.value > RECOVERY_WINDOW {
            var latestRecovered, dtos, ranges := RecoverMissedBlocks(prevBlockNumber, t.recovery);
            published := published + dtos;
            if latestRecovered.Err? {
              prevBlockNumber := -1;
              timer.Reset(RETRY_TICK);
            } else {
              prevBlockNumber := latestRecovered.value.number;
              UpdateTickerAfterBlock(latestRecovered.value, t.armedAt);
            }
            fetchStartTime := None;
            return;
          }
          timer.Reset(RETRY_TICK);
          return;
        }
        fetchedBlock := t.byNumber.value;
        fetchStartTime := None;
      }
      if fetchedBlock.None? {
        timer.Reset(RETRY_TICK);
        return;
      }
      var block := fetchedBlock.value;
      if block.number == prevBlockNumber {
        timer.Reset(RETRY_TICK);
        return;
      }
      if t.receipts.Failed? {
        timer.Reset(RETRY_TICK);
        return;
      }
      var dto := BuildBlockDto(block, t.receipts.value);
      if !t.publish.Published? {
        if IsUnpublishable(t.publish) {
          prevBlockNumber := block.number;
          UpdateTickerAfterBlock(block, t.armedAt);
          return;
        }
        if fetchStartTime.None? {
          fetchStartTime := Some(t.publishedAt);
        }
        timer.Reset(RETRY_TICK);
        return;
      }
      published := published + [dto];
      prevBlockNumber := block.number;
      UpdateTickerAfterBlock(block, t.armedAt);
    }

    /** The loop: one iteration per firing of the timer. */
    method Run(ticks: seq<Tick>)
      requires State() == START
      requires forall n | 0 <= n < |ticks| :: InRange(StateAfter(ticks[..n]).prev, ticks[n].recovery)
      modifies this, timer
      ensures State() == StateAfter(ticks)
      ensures published == old(published) + PublishedBy(ticks)
      ensures timer.armed == old(timer.armed) + DelaysOf(ticks)
    {
      hide TurnOf, InRange;
      for n := 0 to |ticks|
        invariant State() == StateAfter(ticks[..n])
        invariant published == old(published) + PublishedBy(ticks[..n])
        invariant timer.armed == old(timer.armed) + DelaysOf(ticks[..n])
      {
        OnTick(ticks[n]);
        assert ticks[..n + 1][..n] == ticks[..n];
      }
      assert ticks[..|ticks|] == ticks;
    }
  }

  // ----- runs of the loop -----

  function StateAfter(ticks: seq<Tick>): LoopState
    decreases |ticks|, 1
  {
    if ticks == [] then START else LastTurn(ticks).state
  }

  /** What the last of these ticks did. */
  function LastTurn(ticks: seq<Tick>): Turn
    requires ticks != []
    decreases |ticks|, 0
  {
    TurnOf(StateAfter(ticks[..|ticks| - 1]), ticks[|ticks| - 1])
  }

  /** What tick n did. */
  function TurnAt(ticks: seq<Tick>, n: nat): Turn
    requires n < |ticks|
  {
    TurnOf(StateAfter(ticks[..n]), ticks[n])
  }

  function PublishedBy(ticks: seq<Tick>): seq<BlockDto> {
    if ticks == [] then [] else PublishedBy(ticks[..|ticks| - 1]) + LastTurn(ticks).published
  }

  function DelaysOf(ticks: seq<Tick>): seq<int> {
    if ticks == [] then [] else DelaysOf(ticks[..|ticks| - 1]) + [LastTurn(ticks).delay]
  }

  /** The heights published or skipped as oversized since prev was last reset to -1. */
  function Segment(ticks: seq<Tick>): seq<int> {
    if ticks == [] || StateAfter(ticks).prev == -1 then []
    else Segment(ticks[..|ticks| - 1]) + LastTurn(ticks).handled
  }

  // ----- what a tick answers for -----

  /** The tick got this block, the latest one or the next one, whichever it asked for. */
  predicate Obtained(s: LoopState, t: Tick, b: Block) {
    if s.prev == -1 then t.latest == Got(Some(b)) else t.byNumber == Got(Some(b))
  }

  /** It got a new block and the block's receipts. */
  predicate InHand(s: LoopState, t: Tick, b: Block) {
    Obtained(s, t, b) && b.number != s.prev && t.receipts.Got?
  }

  /** The height the next tick asks for, unless it is to ask for the latest block. */
  function Wants(s: LoopState): Option<int> {
    if s.prev == -1 then None else Some(s.prev + 1)
  }

  /**
   What a tick outside a recovery may do with each answer: it publishes the document
   of a new block if and only if the publisher took it, moves on if and only if it took
   it or found it too large, and otherwise asks for the same again in two seconds.
   */
  ghost predicate Answered(s: LoopState, t: Tick, turn: Turn) {
    && (forall b | InHand(s, t, b) && t.publish.Published? ::
          && turn.state.prev == b.number && turn.handled == [b.number]
          && turn.published == [BlockDtoOf(b, t.receipts.value)]
          && turn.delay == NextDelay(b, t.armedAt))
    && (forall b | InHand(s, t, b) && t.publish.Oversized? ::
          && turn.state.prev == b.number && turn.handled == [b.number] && turn.published == []
          && turn.delay == NextDelay(b, t.armedAt))
    && ((forall b :: !InHand(s, t, b)) || t.publish.Rejected? ==>
          && turn.state.prev == s.prev && turn.handled == [] && turn.published == [] && turn.delay == RETRY_TICK
          && Wants(turn.state) == Wants(s))
  }

  /** When the window is open after a tick outside a recovery, and since when. */
  ghost predicate WindowAnswers(s: LoopState, t: Tick, after: Option<int>) {
    var fails := s.prev != -1 && t.byNumber.Failed?;
    var kept := if s.prev != -1 && t.byNumber.Got? then None else s.fetchStart;
    && (fails ==> after == if kept.Some? then kept else Some(t.fetchedAt))
    && ((exists b :: InHand(s, t, b)) && t.publish.Rejected? ==>
          after == if kept.Some? then kept else Some(t.publishedAt))
    && (!fails && ((forall b :: !InHand(s, t, b)) || !t.publish.Rejected?) ==> after == kept)
  }

  lemma TickAnswers(ticks: seq<Tick>, t: Tick)
    ensures var s, turn := StateAfter(ticks), LastTurn(ticks + [t]);
            && StateAfter(ticks + [t]) == turn.state
            && (!turn.recovering ==> Answered(s, t, turn) && WindowAnswers(s, t, turn.state.fetchStart))
  {
    assert (ticks + [t])[..|ticks|] == ticks;
    TurnAnswers(StateAfter(ticks), t);
    hide TurnOf;
  }

  lemma TurnAnswers(s: LoopState, t: Tick)
    ensures !TurnOf(s, t).recovering ==>
              Answered(s, t, TurnOf(s, t)) && WindowAnswers(s, t, TurnOf(s, t).state.fetchStart)
  {
    hide TurnOf, Answered, WindowAnswers;
    TurnIsAnswered(s, t);
    WindowIsAnswered(s, t);
  }

  lemma TurnIsAnswered(s: LoopState, t: Tick)
    ensures !TurnOf(s, t).recovering ==> Answered(s, t, TurnOf(s, t))
  {
    hide NextDelay, BlockDtoOf, RecoveryTurn;
    RecoveryTurnRecovers(s, t);
    if s.prev == -1 && t.latest.Got? && t.latest.value.Some? {
      OneInHand(s, t, t.latest.value.value);
    } else if s.prev != -1 && t.byNumber.Got? && t.byNumber.value.Some? {
      OneInHand(s, t, t.byNumber.value.value);
    }
  }

  lemma WindowIsAnswered(s: LoopState, t: Tick)
    ensures !TurnOf(s, t).recovering ==> WindowAnswers(s, t, TurnOf(s, t).state.fetchStart)
  {
    hide NextDelay, BlockDtoOf, RecoveryTurn;
    RecoveryTurnRecovers(s, t);
    if s.prev == -1 && t.latest.Got? && t.latest.value.Some? {
      OneInHand(s, t, t.latest.value.value);
    } else if s.prev != -1 && t.byNumber.Got? && t.byNumber.value.Some? {
      OneInHand(s, t, t.byNumber.value.value);
    }
  }

  lemma OneInHand(s: LoopState, t: Tick, b: Block)
    requires Obtained(s, t, b)
    ensures forall x | InHand(s, t, x) :: x == b
    ensures (exists x :: InHand(s, t, x)) <==> InHand(s, t, b)
  {
  }

  /** A recovery ends with the last block it published, or with a reset, and always closes the window. */
  lemma RecoveryAnswers(s: LoopState, t: Tick)
    requires TurnOf(s, t).recovering
    ensures var turn, blocks := TurnOf(s, t), RecoveredBy(|Gap(s.prev, t.recovery)|, t.recovery);
            && turn.state.fetchStart == None
            && turn.published == DtosBy(|Gap(s.prev, t.recovery)|, t.recovery)
            && |turn.handled| == |blocks| && (forall n | 0 <= n < |blocks| :: turn.handled[n] == blocks[n].number)
            && (blocks == [] ==> turn.state.prev == -1 && turn.delay == RETRY_TICK)
            && (blocks != [] ==>
                  && turn.state.prev == blocks[|blocks| - 1].number
                  && turn.delay == NextDelay(blocks[|blocks| - 1], t.armedAt))
  {
    hide NextDelay, RecoveredBy, DtosBy, Gap;
  }

  /**
   In every run a height handled outside a recovery is that of a new block which the
   tick got with its receipts, and which was published or found too large; and a block
   whose publish is rejected is asked for again by the next tick.
   */
  lemma HandledIsPublishedOrOversized(ticks: seq<Tick>)
    ensures forall n | 0 <= n < |ticks| && !TurnAt(ticks, n).recovering && TurnAt(ticks, n).handled != [] ::
              exists b :: InHand(StateAfter(ticks[..n]), ticks[n], b) && TurnAt(ticks, n).handled == [b.number]
                          && (ticks[n].publish.Oversized?
                              || (ticks[n].publish.Published?
                                  && TurnAt(ticks, n).published == [BlockDtoOf(b, ticks[n].receipts.value)]))
    ensures forall n | 0 <= n < |ticks| && !TurnAt(ticks, n).recovering && ticks[n].publish.Rejected? ::
              Wants(StateAfter(ticks[..n + 1])) == Wants(StateAfter(ticks[..n]))
  {
    hide TurnOf;
    forall n | 0 <= n < |ticks| && !TurnAt(ticks, n).recovering
      ensures Answered(StateAfter(ticks[..n]), ticks[n], TurnAt(ticks, n))
      ensures StateAfter(ticks[..n + 1]) == TurnAt(ticks, n).state
    {
      assert ticks[..n + 1] == ticks[..n] + [ticks[n]];
      TickAnswers(ticks[..n], ticks[n]);
      assert (ticks[..n] + [ticks[n]])[..n] == ticks[..n];
    }
  }

  // ----- the due time -----

  /** A block is due twelve and a half seconds after its predecessor; the timer fires then, or in a second. */
  lemma DelayIsDue(b: Block, now: int)
    ensures var due := b.timestamp * 1_000 + 12_500;
            && NextDelay(b, now) >= 1_000 && now + NextDelay(b, now) >= due
            && (NextDelay(b, now) == 1_000 || now + NextDelay(b, now) == due)
  {
  }

  // ----- contiguity -----

  /** Where the tick asks the node, it answers for the height or with blocks of the range it was asked. */
  predicate Honest(s: LoopState, t: Tick) {
    && (s.prev == -1 && t.latest.Got? && t.latest.value.Some? ==> t.latest.value.value.number >= 0)
    && (s.prev != -1 && t.byNumber.Got? && t.byNumber.value.Some? ==> t.byNumber.value.value.number == s.prev + 1)
    && (TurnOf(s, t).recovering ==> AllWithin(Gap(s.prev, t.recovery), t.recovery))
  }

  predicate HonestRun(ticks: seq<Tick>) {
    ticks != [] ==>
      && HonestRun(ticks[..|ticks| - 1])
      && Honest(StateAfter(ticks[..|ticks| - 1]), ticks[|ticks| - 1])
  }

  /** The recovery publishes in order and skips nothing. */
  predicate InSequence(s: LoopState, t: Tick) {
    var ranges := Gap(s.prev, t.recovery);
    InOrder(ranges, t.recovery, |ranges|) && NoHole(ranges, t.recovery, |ranges|)
  }

  predicate Successive(heights: seq<int>) {
    forall n | 0 <= n < |heights| :: heights[n] == heights[0] + n
  }

  predicate FollowOn(heights: seq<int>, start: int) {
    forall n | 0 <= n < |heights| :: heights[n] == start + n
  }

  /** The heights a tick handled follow those handled before, unless it is a recovery out of sequence. */
  predicate Extends(s: LoopState, t: Tick, turn: Turn) {
    && turn.state.prev >= -1
    && (turn.handled == [] ==> turn.state.prev == s.prev || turn.state.prev == -1)
    && (turn.handled != [] ==> turn.state.prev != -1 && turn.handled[|turn.handled| - 1] == turn.state.prev)
    && (turn.recovering ==> s.prev != -1 && (FollowOn(turn.handled, s.prev + 1) <==> InSequence(s, t)))
    && (!turn.recovering ==> |turn.handled| <= 1 && (s.prev != -1 ==> FollowOn(turn.handled, s.prev + 1)))
  }

  lemma RecoveryExtends(s: LoopState, t: Tick)
    requires s.prev >= 0 && AllWithin(Gap(s.prev, t.recovery), t.recovery)
    ensures Extends(s, t, RecoveryTurn(s, t))
  {
    hide Gap, NoHole, InOrder, AllWithin, RecoveredBy, DtosBy;
    RecoveredHeights(s.prev, t.recovery);
    var n := |Gap(s.prev, t.recovery)|;
    var blocks := RecoveredBy(n, t.recovery);
    RecoveredAbove(s.prev, t.recovery, n);
    assert blocks != [] ==> blocks[|blocks| - 1] in blocks;
    assert Consecutive(blocks, s.prev + 1) <==> FollowOn(Heights(blocks), s.prev + 1);
  }

  lemma {:induction false} RecoveredAbove(fromBlock: int, rec: Recovery, n: nat)
    requires n <= |Gap(fromBlock, rec)| && AllWithin(Gap(fromBlock, rec), rec)
    ensures forall b | b in RecoveredBy(n, rec) :: b.number > fromBlock
  {
    if n > 0 {
      RecoveredAbove(fromBlock, rec, n - 1);
      ChunkHeights(fromBlock, rec, n - 1);
    }
  }

  /** One tick handles the heights that follow the previous one, or none, or recovers out of sequence. */
  lemma TurnExtends(s: LoopState, t: Tick)
    requires s.prev >= -1 && Honest(s, t)
    ensures Extends(s, t, TurnOf(s, t))
  {
    hide RecoveryTurn, Gap, NoHole, InOrder, InSequence, AllWithin, BlockDtoOf, NextDelay;
    RecoveryTurnRecovers(s, t);
    if TurnOf(s, t).recovering {
      RecoveryExtends(s, t);
    }
  }

  lemma RecoveryTurnRecovers(s: LoopState, t: Tick)
    ensures RecoveryTurn(s, t).recovering
  {
  }

  lemma {:induction false} StatesAreHeights(ticks: seq<Tick>)
    requires HonestRun(ticks)
    ensures StateAfter(ticks).prev >= -1
    ensures StateAfter(ticks).prev != -1 ==>
              Segment(ticks) != [] && Segment(ticks)[|Segment(ticks)| - 1] == StateAfter(ticks).prev
  {
    hide TurnOf, Honest, InSequence;
    if ticks != [] {
      var before := ticks[..|ticks| - 1];
      StatesAreHeights(before);
      TurnExtends(StateAfter(before), ticks[|ticks| - 1]);
      assert StateAfter(ticks) == LastTurn(ticks).state;
    }
  }

  /** A segment stays consecutive exactly when the tick is no recovery out of sequence. */
  lemma SegmentStep(ticks: seq<Tick>)
    requires HonestRun(ticks) && ticks != [] && Successive(Segment(ticks[..|ticks| - 1]))
    ensures Successive(Segment(ticks)) <==>
              (LastTurn(ticks).recovering ==> InSequence(StateAfter(ticks[..|ticks| - 1]), ticks[|ticks| - 1]))
  {
    hide TurnOf, Honest, InSequence, StateAfter, Segment, HonestRun;
    var before, t := ticks[..|ticks| - 1], ticks[|ticks| - 1];
    StepsOf(ticks);
    StatesAreHeights(before);
    TurnExtends(StateAfter(before), t);
    if StateAfter(before).prev != -1 {
      SuccessiveJoin(Segment(before), LastTurn(ticks).handled);
    }
  }

  lemma StepsOf(ticks: seq<Tick>)
    requires HonestRun(ticks) && ticks != []
    ensures var before := ticks[..|ticks| - 1];
            && HonestRun(before) && Honest(StateAfter(before), ticks[|ticks| - 1])
            && StateAfter(ticks) == LastTurn(ticks).state
            && LastTurn(ticks) == TurnOf(StateAfter(before), ticks[|ticks| - 1])
            && (StateAfter(before).prev == -1 ==> Segment(before) == [])
            && Segment(ticks) == if StateAfter(ticks).prev == -1 then [] else Segment(before) + LastTurn(ticks).handled
  {
    hide TurnOf, Honest;
  }

  lemma SuccessiveJoin(a: seq<int>, b: seq<int>)
    requires a != [] && Successive(a)
    ensures Successive(a + b) <==> FollowOn(b, a[|a| - 1] + 1)
  {
    if Successive(a + b) {
      forall n | 0 <= n < |b| ensures b[n] == a[|a| - 1] + 1 + n {
        assert (a + b)[|a| + n] == b[n];
      }
    }
  }

  /** At every moment the heights handled since the last reset are consecutive. */
  predicate AlwaysSuccessive(ticks: seq<Tick>) {
    Successive(Segment(ticks)) && (ticks != [] ==> AlwaysSuccessive(ticks[..|ticks| - 1]))
  }

  /** No recovery is out of sequence. */
  predicate AllInSequence(ticks: seq<Tick>) {
    ticks != [] ==>
      && AllInSequence(ticks[..|ticks| - 1])
      && (LastTurn(ticks).recovering ==> InSequence(StateAfter(ticks[..|ticks| - 1]), ticks[|ticks| - 1]))
  }

  /**
   Between two resets the heights published or skipped are consecutive integers,
   each handled once, for any failures of fetching, receipts and publishing, if and
   only if no recovery is out of sequence.
   */
  lemma {:induction false} Contiguity(ticks: seq<Tick>)
    requires HonestRun(ticks)
    ensures AlwaysSuccessive(ticks) <==> AllInSequence(ticks)
  {
    hide StateAfter, LastTurn, InSequence, Successive, Honest;
    if ticks != [] {
      Contiguity(ticks[..|ticks| - 1]);
      if Successive(Segment(ticks[..|ticks| - 1])) {
        SegmentStep(ticks);
      }
    } else {
      NothingHandled();
    }
  }

  lemma NothingHandled()
    ensures Successive(Segment([]))
  {
  }

  // ----- the recovery window -----

  /** Tick n set the window, which was unset or which it had cleared, to start at this time. */
  predicate SetsWindow(ticks: seq<Tick>, n: nat, at: int)
    requires n < |ticks|
  {
    && StateAfter(ticks[..n + 1]).fetchStart == Some(at)
    && (StateAfter(ticks[..n]).fetchStart.None? || TurnAt(ticks, n).fetched)
    && (at == ticks[n].fetchedAt || at == ticks[n].publishedAt)
  }

  /** In the ticks after n no FetchBlockByNumber succeeded and no recovery was made. */
  ghost predicate StaysOpen(ticks: seq<Tick>, n: nat) {
    forall m | n < m < |ticks| :: !TurnAt(ticks, m).fetched && !TurnAt(ticks, m).recovering
  }

  ghost predicate WindowOpen(ticks: seq<Tick>, at: int) {
    exists n: nat :: n < |ticks| && SetsWindow(ticks, n, at) && StaysOpen(ticks, n)
  }

  lemma WindowTurn(s: LoopState, t: Tick)
    ensures var turn := TurnOf(s, t);
            && (turn.state.fetchStart.Some? ==>
                  || (turn.state.fetchStart == s.fetchStart && !turn.fetched && !turn.recovering)
                  || ((s.fetchStart.None? || turn.fetched)
                      && (turn.state.fetchStart.value == t.publishedAt
                          || (!turn.fetched && turn.state.fetchStart.value == t.fetchedAt))))
            && (turn.fetched <==> s.prev != -1 && t.byNumber.Got?)
            && (s.fetchStart.Some? && !turn.fetched && !turn.recovering ==> turn.state.fetchStart == s.fetchStart)
            && (turn.recovering <==>
                  && s.prev != -1 && t.byNumber == Failed(false)
                  && s.fetchStart.Some? && t.fetchedAt - s.fetchStart.value > RECOVERY_WINDOW)
  {
  }

  lemma {:induction false} OpenWindows(ticks: seq<Tick>)
    ensures StateAfter(ticks).fetchStart.Some? ==> WindowOpen(ticks, StateAfter(ticks).fetchStart.value)
  {
    hide TurnOf;
    if ticks != [] && StateAfter(ticks).fetchStart.Some? {
      var m, at := |ticks| - 1, StateAfter(ticks).fetchStart.value;
      var before := ticks[..m];
      OpenWindows(before);
      WindowTurn(StateAfter(before), ticks[m]);
      assert ticks[..m + 1] == ticks;
      assert TurnAt(ticks, m) == LastTurn(ticks);
      if StateAfter(before).fetchStart.None? || LastTurn(ticks).fetched {
        assert SetsWindow(ticks, m, at) && StaysOpen(ticks, m);
      } else {
        var n: nat :| n < |before| && SetsWindow(before, n, at) && StaysOpen(before, n);
        assert before[..n + 1] == ticks[..n + 1] && before[..n] == ticks[..n];
        assert SetsWindow(ticks, n, at);
        forall x | n < x < |ticks| ensures !TurnAt(ticks, x).fetched && !TurnAt(ticks, x).recovering {
          if x < m {
            assert before[..x] == ticks[..x];
            assert TurnAt(ticks, x) == TurnAt(before, x);
          }
        }
        assert StaysOpen(ticks, n);
      }
    }
  }

  /** A window that stays open keeps its start. */
  lemma {:induction false} WindowsKeepStart(ticks: seq<Tick>, n: nat, at: int)
    requires n < |ticks| && SetsWindow(ticks, n, at) && StaysOpen(ticks, n)
    ensures StateAfter(ticks).fetchStart == Some(at)
  {
    hide TurnOf;
    var m := |ticks| - 1;
    assert ticks[..m + 1] == ticks;
    if n < m {
      var before := ticks[..m];
      assert before[..n + 1] == ticks[..n + 1] && before[..n] == ticks[..n];
      forall x | n < x < m ensures !TurnAt(before, x).fetched && !TurnAt(before, x).recovering {
        assert before[..x] == ticks[..x];
        assert TurnAt(before, x) == TurnAt(ticks, x);
      }
      WindowsKeepStart(before, n, at);
      WindowTurn(StateAfter(before), ticks[m]);
      assert !TurnAt(ticks, m).fetched && !TurnAt(ticks, m).recovering;
    }
  }

  /**
   A recovery is started if and only if fetching the next block fails, other than by
   its absence, more than two minutes after a tick that set the window, with no
   successful fetch by number and no recovery in between.
   */
  lemma RecoveryWindow(ticks: seq<Tick>, t: Tick)
    ensures LastTurn(ticks + [t]).recovering <==>
              && StateAfter(ticks).prev != -1 && t.byNumber == Failed(false)
              && exists at :: WindowOpen(ticks, at) && t.fetchedAt - at > RECOVERY_WINDOW
  {
    hide TurnOf;
    assert (ticks + [t])[..|ticks|] == ticks;
    WindowTurn(StateAfter(ticks), t);
    OpenWindows(ticks);
    forall at | WindowOpen(ticks, at) ensures StateAfter(ticks).fetchStart == Some(at) {
      var n: nat :| n < |ticks| && SetsWindow(ticks, n, at) && StaysOpen(ticks, n);
      WindowsKeepStart(ticks, n, at);
    }
  }

  /** The clock does not run backwards between two ticks, nor within one. */
  predicate ClockRuns(ticks: seq<Tick>) {
    && (forall n | 0 <= n < |ticks| :: ticks[n].fetchedAt <= ticks[n].publishedAt)
    && (forall m, n | 0 <= m < n < |ticks| :: ticks[m].publishedAt <= ticks[n].fetchedAt)
  }

  /** After a tick that fetched its block the window starts no earlier than that tick's publish. */
  lemma {:induction false} FetchRenewsWindow(ticks: seq<Tick>, n: nat)
    requires n < |ticks| && TurnAt(ticks, n).fetched && ClockRuns(ticks)
    ensures StateAfter(ticks).fetchStart.Some? ==> StateAfter(ticks).fetchStart.value >= ticks[n].publishedAt
  {
    hide TurnOf;
    var m := |ticks| - 1;
    var before := ticks[..m];
    WindowTurn(StateAfter(before), ticks[m]);
    assert TurnAt(ticks, m) == LastTurn(ticks);
    if n < m {
      assert before[..n] == ticks[..n];
      FetchRenewsWindow(before, n);
    }
  }

  /**
   A failed publish sets the window, but every fetch renews it: a recovery is made
   only when fetching itself has failed for two minutes. However long publishing
   fails, a recovery starts no earlier than two minutes after the last tick that
   fetched its block, and in a run whose fetches succeed there is none.
   */
  lemma PublishOutageIsNotRecovered(ticks: seq<Tick>)
    requires ClockRuns(ticks)
    ensures forall m, n | 0 <= n < m < |ticks| && TurnAt(ticks, m).recovering && TurnAt(ticks, n).fetched ::
              ticks[m].fetchedAt - ticks[n].publishedAt > RECOVERY_WINDOW
    ensures forall m | 0 <= m < |ticks| && TurnAt(ticks, m).recovering :: !TurnAt(ticks, m).fetched
  {
    hide TurnOf;
    forall m | 0 <= m < |ticks| && TurnAt(ticks, m).recovering ensures !TurnAt(ticks, m).fetched {
      WindowTurn(StateAfter(ticks[..m]), ticks[m]);
    }
    forall m, n | 0 <= n < m < |ticks| && TurnAt(ticks, m).recovering && TurnAt(ticks, n).fetched
      ensures ticks[m].fetchedAt - ticks[n].publishedAt > RECOVERY_WINDOW
    {
      var before := ticks[..m];
      assert before[..n] == ticks[..n];
      WindowTurn(StateAfter(before), ticks[m]);
      FetchRenewsWindow(before, n);
    }
  }

  // ----- the documents -----

  /** The blocks whose documents a tick publishes. */
  function BlocksOf(s: LoopState, t: Tick): seq<Block> {
    var turn := TurnOf(s, t);
    if turn.recovering then RecoveredBy(|Gap(s.prev, t.recovery)|, t.recovery)
    else if turn.published == [] then []
    else if s.prev == -1 then [t.latest.value.value]
    else [t.byNumber.value.value]
  }

  function BlocksBy(ticks: seq<Tick>): seq<Block> {
    if ticks == [] then []
    else BlocksBy(ticks[..|ticks| - 1]) + BlocksOf(StateAfter(ticks[..|ticks| - 1]), ticks[|ticks| - 1])
  }

  /** A chunk's batch of receipts answers for its blocks, in any order, with the receipts they have on the chain. */
  ghost predicate ChunkFromChain(a: ChunkAnswer, chain: map<string, seq<Receipt>>) {
    Recovered(a) != [] ==>
      exists raw :: Answers(raw, Hashes(Fetched(a)), chain) && ChunkReceipts(a) == Receipts(raw)
  }

  /** Every receipt the tick is given is from the chain. */
  ghost predicate FromChain(s: LoopState, t: Tick, chain: map<string, seq<Receipt>>) {
    if TurnOf(s, t).recovering
    then forall n | 0 <= n < |Gap(s.prev, t.recovery)| :: ChunkFromChain(t.recovery.At(n), chain)
    else forall b | b in BlocksOf(s, t) :: b.hash in chain && t.receipts == Got(chain[b.hash])
  }

  ghost predicate RunFromChain(ticks: seq<Tick>, chain: map<string, seq<Receipt>>) {
    ticks != [] ==>
      && RunFromChain(ticks[..|ticks| - 1], chain)
      && FromChain(StateAfter(ticks[..|ticks| - 1]), ticks[|ticks| - 1], chain)
  }

  /** One document per block, with the block's receipts on the chain. */
  predicate Live(dtos: seq<BlockDto>, blocks: seq<Block>, chain: map<string, seq<Receipt>>) {
    && |dtos| == |blocks|
    && forall n | 0 <= n < |blocks| ::
         blocks[n].hash in chain && dtos[n] == BlockDtoOf(blocks[n], chain[blocks[n].hash])
  }

  /** Read back, the documents are the blocks, and their receipts those on the chain, in order. */
  predicate ReadsBack(dtos: seq<BlockDto>, blocks: seq<Block>, chain: map<string, seq<Receipt>>) {
    && |dtos| == |blocks|
    && forall n | 0 <= n < |blocks| ::
         && BlockOf(dtos[n]) == blocks[n]
         && blocks[n].hash in chain && ReceiptsOf(dtos[n]) == chain[blocks[n].hash]
  }

  /** Every receipt on the chain names its block. */
  predicate NamesItsBlock(chain: map<string, seq<Receipt>>) {
    forall h | h in chain :: forall x | x in chain[h] :: x.blockHash == h
  }

  lemma LiveReadsBack(dtos: seq<BlockDto>, blocks: seq<Block>, chain: map<string, seq<Receipt>>)
    requires Live(dtos, blocks, chain) && NamesItsBlock(chain)
    ensures ReadsBack(dtos, blocks, chain)
  {
    hide BlockDtoOf, BlockOf, ReceiptsOf;
    forall n | 0 <= n < |blocks|
      ensures BlockOf(dtos[n]) == blocks[n] && ReceiptsOf(dtos[n]) == chain[blocks[n].hash]
    {
      DocumentReadsBack(blocks[n], chain[blocks[n].hash]);
    }
  }

  lemma LiveJoin(d1: seq<BlockDto>, b1: seq<Block>, d2: seq<BlockDto>, b2: seq<Block>, chain: map<string, seq<Receipt>>)
    requires Live(d1, b1, chain) && Live(d2, b2, chain)
    ensures Live(d1 + d2, b1 + b2, chain)
  {
    hide BlockDtoOf;
  }

  lemma ChunkIsLive(a: ChunkAnswer, chain: map<string, seq<Receipt>>)
    requires ChunkFromChain(a, chain)
    ensures Live(Dtos(Recovered(a), ChunkReceipts(a)), Recovered(a), chain)
  {
    hide Answers, BlockDtoOf, Prefix;
    if Recovered(a) != [] {
      var raw :| Answers(raw, Hashes(Fetched(a)), chain) && ChunkReceipts(a) == Receipts(raw);
      ChunkPublishesAsLive(a, raw, chain);
    }
  }

  lemma {:induction false} RecoveryIsLive(rec: Recovery, n: nat, chain: map<string, seq<Receipt>>)
    requires forall m | 0 <= m < n :: ChunkFromChain(rec.At(m), chain)
    ensures Live(DtosBy(n, rec), RecoveredBy(n, rec), chain)
  {
    hide ChunkFromChain, Live, Recovered, Dtos;
    if n == 0 {
      NothingIsLive(chain);
    } else {
      RecoveryIsLive(rec, n - 1, chain);
      ChunkIsLive(rec.At(n - 1), chain);
      LiveJoin(DtosBy(n - 1, rec), RecoveredBy(n - 1, rec),
               Dtos(Recovered(rec.At(n - 1)), ChunkReceipts(rec.At(n - 1))), Recovered(rec.At(n - 1)), chain);
    }
  }

  lemma NothingIsLive(chain: map<string, seq<Receipt>>)
    ensures Live([], [], chain)
  {
  }

  lemma TurnIsLive(s: LoopState, t: Tick, chain: map<string, seq<Receipt>>)
    requires FromChain(s, t, chain)
    ensures Live(TurnOf(s, t).published, BlocksOf(s, t), chain)
  {
    hide BlockDtoOf, NextDelay, ChunkFromChain, Gap, RecoveredBy, DtosBy;
    if TurnOf(s, t).recovering {
      RecoveryIsLive(t.recovery, |Gap(s.prev, t.recovery)|, chain);
    } else if BlocksOf(s, t) != [] {
      assert BlocksOf(s, t)[0] in BlocksOf(s, t);
    }
  }

  /**
   A bot cannot tell a recovered block from a live one: in every run whose receipts
   are those of the chain, live or batched in any order, each document published is
   its block with exactly the block's receipts, and can be read back as these.
   */
  lemma {:induction false} PublishedIsLive(ticks: seq<Tick>, chain: map<string, seq<Receipt>>)
    requires RunFromChain(ticks, chain)
    ensures Live(PublishedBy(ticks), BlocksBy(ticks), chain)
    ensures NamesItsBlock(chain) ==> ReadsBack(PublishedBy(ticks), BlocksBy(ticks), chain)
  {
    hide TurnOf, BlocksOf, FromChain, Live, ReadsBack, NamesItsBlock;
    if ticks == [] {
      NothingIsLive(chain);
    } else {
      var before, t := ticks[..|ticks| - 1], ticks[|ticks| - 1];
      PublishedIsLive(before, chain);
      TurnIsLive(StateAfter(before), t, chain);
      LiveJoin(PublishedBy(before), BlocksBy(before),
               LastTurn(ticks).published, BlocksOf(StateAfter(before), t), chain);
    }
    if NamesItsBlock(chain) {
      LiveReadsBack(PublishedBy(ticks), BlocksBy(ticks), chain);
    }
  }

  // ----- the timer -----

  /** The block the timer is set by, if this tick handled one, is not from the future. */
  predicate NotFromFuture(s: LoopState, t: Tick) {
    LastHandled(s, t).Some? ==> LastHandled(s, t).value.timestamp * 1000 <= t.armedAt
  }

  lemma DelayBounds(s: LoopState, t: Tick)
    ensures TurnOf(s, t).delay >= 1_000
    ensures NotFromFuture(s, t) ==> TurnOf(s, t).delay <= 12_500
  {
  }

  /**
   Every tick arms the one-shot timer exactly once, for at least a second, and for
   at most twelve and a half while no block comes from the future: the loop never
   stops ticking and never spins.
   */
  lemma {:induction false} ArmedOncePerTick(ticks: seq<Tick>)
    ensures |DelaysOf(ticks)| == |ticks|
    ensures forall n | 0 <= n < |ticks| :: DelaysOf(ticks)[n] == TurnAt(ticks, n).delay >= 1_000
    ensures forall n | 0 <= n < |ticks| && NotFromFuture(StateAfter(ticks[..n]), ticks[n]) ::
              DelaysOf(ticks)[n] <= 12_500
  {
    hide TurnOf, LastHandled;
    if ticks != [] {
      var m := |ticks| - 1;
      var before := ticks[..m];
      ArmedOncePerTick(before);
      forall n | 0 <= n < |ticks|
        ensures DelaysOf(ticks)[n] == TurnAt(ticks, n).delay >= 1_000
        ensures NotFromFuture(StateAfter(ticks[..n]), ticks[n]) ==> DelaysOf(ticks)[n] <= 12_500
      {
        DelayBounds(StateAfter(ticks[..n]), ticks[n]);
        if n < m {
          assert before[..n] == ticks[..n];
        }
      }
    }
  }

  /** The block the timer is set by, if this tick handled one. */
  function LastHandled(s: LoopState, t: Tick): Option<Block> {
    var turn := TurnOf(s, t);
    if turn.recovering then LastOf(RecoveredBy(|Gap(s.prev, t.recovery)|, t.recovery))
    else if turn.handled == [] then None
    else if s.prev == -1 then t.latest.value
    else t.byNumber.value
  }
}
