/** What a recovery asks for and publishes: its ranges, and when the published heights have no hole. */
module FeederRecovery {
  import opened Wrappers
  import opened Chain
  import opened FeederBlocks

  // ----- the ranges -----

  /** Every range asked for is the next fifty heights, cut off at the latest block, and all but the last publish. */
  lemma {:induction false} RangeAt(from: int, latest: int, rec: Recovery, m: nat, n: nat)
    requires n < |Attempted(from, latest, rec, m)|
    ensures from + RECOVER_CHUNK_SIZE * n <= latest
    ensures Attempted(from, latest, rec, m)[n] == ChunkAt(from + RECOVER_CHUNK_SIZE * n, latest)
    ensures n + 1 < |Attempted(from, latest, rec, m)| ==> Recovered(rec.At(m + n)) != []
    decreases n
  {
    if n > 0 {
      RangeAt(from + RECOVER_CHUNK_SIZE, latest, rec, m + 1, n - 1);
    }
  }

  lemma {:induction false} RangeCount(from: int, latest: int, rec: Recovery, m: nat)
    requires from <= latest
    requires forall n | m <= n < m + |Attempted(from, latest, rec, m)| :: Recovered(rec.At(n)) != []
    ensures |Attempted(from, latest, rec, m)| == (latest - from) / RECOVER_CHUNK_SIZE + 1
    decreases latest - from
  {
    if from + RECOVER_CHUNK_SIZE <= latest {
      RangeCount(from + RECOVER_CHUNK_SIZE, latest, rec, m + 1);
    }
  }

  /**
   When no chunk fails, the ranges partition the gap in order: each starts where the
   one before ended, none is longer than fifty, the last ends at the latest block,
   and there are as many as it takes.
   */
  lemma RangesPartitionGap(fromBlock: int, rec: Recovery)
    requires rec.latest.Got? && rec.latest.value.Some? && rec.latest.value.value.number > fromBlock
    requires forall n | 0 <= n < |Gap(fromBlock, rec)| :: Recovered(rec.At(n)) != []
    ensures var ranges, latest := Gap(fromBlock, rec), rec.latest.value.value.number;
            && |ranges| == (latest - fromBlock + RECOVER_CHUNK_SIZE - 1) / RECOVER_CHUNK_SIZE
            && ranges[0].from == fromBlock + 1 && ranges[|ranges| - 1].to == latest
            && (forall n | 0 <= n < |ranges| :: ranges[n].from <= ranges[n].to < ranges[n].from + RECOVER_CHUNK_SIZE)
            && (forall n | 0 <= n < |ranges| - 1 :: ranges[n + 1].from == ranges[n].to + 1)
  {
    var ranges, latest := Gap(fromBlock, rec), rec.latest.value.value.number;
    RangeCount(fromBlock + 1, latest, rec, 0);
    forall n | 0 <= n < |ranges|
      ensures fromBlock + 1 + RECOVER_CHUNK_SIZE * n <= latest
      ensures ranges[n] == ChunkAt(fromBlock + 1 + RECOVER_CHUNK_SIZE * n, latest)
    {
      RangeAt(fromBlock + 1, latest, rec, 0, n);
    }
  }

  // ----- the heights -----

  /** The chunk was answered with blocks that were asked for, at most one each: some may be missing, in any order. */
  predicate Within(c: Chunk, a: ChunkAnswer) {
    && |Fetched(a)| <= c.to - c.from + 1
    && forall n | 0 <= n < |Fetched(a)| :: c.from <= Fetched(a)[n].number <= c.to
  }

  predicate AllWithin(ranges: seq<Chunk>, rec: Recovery) {
    forall n | 0 <= n < |ranges| :: Within(ranges[n], rec.At(n))
  }

  predicate Consecutive(blocks: seq<Block>, start: int) {
    forall n | 0 <= n < |blocks| :: blocks[n].number == start + n
  }

  /** The first n chunks publish their heights in order, from the first on. */
  predicate InOrder(ranges: seq<Chunk>, rec: Recovery, n: nat)
    requires n <= |ranges|
  {
    forall m | 0 <= m < n :: Consecutive(Recovered(rec.At(m)), ranges[m].from)
  }

  /** Among the first n chunks, each that is followed by published blocks was published whole. */
  predicate NoHole(ranges: seq<Chunk>, rec: Recovery, n: nat)
    requires n <= |ranges|
  {
    forall m | 0 <= m < n - 1 && Recovered(rec.At(m + 1)) != [] ::
      |Recovered(rec.At(m))| == ranges[m].to - ranges[m].from + 1
  }

  /** What is known of chunk n and of the one before it. */
  lemma ChunkHeights(fromBlock: int, rec: Recovery, n: nat)
    requires n < |Gap(fromBlock, rec)| && AllWithin(Gap(fromBlock, rec), rec)
    ensures var ranges := Gap(fromBlock, rec);
            && ranges[n].from == fromBlock + 1 + RECOVER_CHUNK_SIZE * n
            && (forall b | b in Recovered(rec.At(n)) :: b.number >= ranges[n].from)
            && (n > 0 ==>
                  && 0 < |Recovered(rec.At(n - 1))| <= RECOVER_CHUNK_SIZE
                  && ranges[n - 1].to - ranges[n - 1].from + 1 == RECOVER_CHUNK_SIZE)
  {
    hide Attempted;
    var latest := rec.latest.value.value.number;
    RangeAt(fromBlock + 1, latest, rec, 0, n);
    assert Within(Gap(fromBlock, rec)[n], rec.At(n));
    if n > 0 {
      RangeAt(fromBlock + 1, latest, rec, 0, n - 1);
      assert Within(Gap(fromBlock, rec)[n - 1], rec.At(n - 1));
    }
  }

  lemma Joined(a: seq<Block>, b: seq<Block>, start: int)
    ensures Consecutive(a + b, start) <==> Consecutive(a, start) && Consecutive(b, start + |a|)
  {
    if Consecutive(a + b, start) {
      forall n | 0 <= n < |a| ensures a[n].number == start + n {
        assert (a + b)[n] == a[n];
      }
      forall n | 0 <= n < |b| ensures b[n].number == start + |a| + n {
        assert (a + b)[|a| + n] == b[n];
      }
    }
  }

  lemma {:induction false} HeightsBy(fromBlock: int, rec: Recovery, n: nat)
    requires n <= |Gap(fromBlock, rec)| && AllWithin(Gap(fromBlock, rec), rec)
    ensures var ranges := Gap(fromBlock, rec);
            && (Consecutive(RecoveredBy(n, rec), fromBlock + 1) <==> InOrder(ranges, rec, n) && NoHole(ranges, rec, n))
            && (NoHole(ranges, rec, n) && n > 0 && Recovered(rec.At(n - 1)) != [] ==>
                  |RecoveredBy(n, rec)| == RECOVER_CHUNK_SIZE * (n - 1) + |Recovered(rec.At(n - 1))|)
  {
    hide Gap, Recovered, AllWithin;
    if n > 0 {
      var ranges := Gap(fromBlock, rec);
      var a, b := RecoveredBy(n - 1, rec), Recovered(rec.At(n - 1));
      HeightsBy(fromBlock, rec, n - 1);
      ChunkHeights(fromBlock, rec, n - 1);
      Joined(a, b, fromBlock + 1);
      OneMoreChunk(ranges, rec, n);
      assert b != [] ==> b[0] in b;
    }
  }

  lemma OneMoreChunk(ranges: seq<Chunk>, rec: Recovery, n: nat)
    requires 0 < n <= |ranges|
    ensures InOrder(ranges, rec, n) <==>
              InOrder(ranges, rec, n - 1) && Consecutive(Recovered(rec.At(n - 1)), ranges[n - 1].from)
    ensures NoHole(ranges, rec, n) <==>
              && NoHole(ranges, rec, n - 1)
              && (n > 1 && Recovered(rec.At(n - 1)) != [] ==>
                    |Recovered(rec.At(n - 2))| == ranges[n - 2].to - ranges[n - 2].from + 1)
  {
    hide Recovered, Consecutive;
    assert n > 1 ==> rec.At(n - 2 + 1) == rec.At(n - 1);
  }

  /**
   Whatever blocks of the gap the node answers with, in whatever order, and wherever
   publishing stops: the published heights are exactly fromBlock+1 up to the result
   if and only if every chunk published its heights in order from its first one, and
   every chunk that is followed by published blocks published all of them.
   */
  lemma RecoveredHeights(fromBlock: int, rec: Recovery)
    requires AllWithin(Gap(fromBlock, rec), rec)
    ensures var ranges := Gap(fromBlock, rec);
            Consecutive(RecoveredBy(|ranges|, rec), fromBlock + 1) <==>
              InOrder(ranges, rec, |ranges|) && NoHole(ranges, rec, |ranges|)
  {
    HeightsBy(fromBlock, rec, |Gap(fromBlock, rec)|);
  }

  // ----- where they are not consecutive -----

  lemma {:induction false} OnlyFirst(publish: seq<PublishResult>, size: nat)
    requires size >= 1 && Accepts(publish, 0) && !Accepts(publish, 1)
    ensures Prefix(publish, size) == 1
  {
    if size > 1 {
      OnlyFirst(publish, size - 1);
    }
  }

  function Numbered(n: nat): Block {
    Block(n, seq(n, _ => 'x'), seq(n, _ => 'y'), n)
  }

  /** A chunk published in part is skipped over: of the heights 1 to 51, only 1 and 51 are published. */
  lemma PartialChunkLeavesHole()
    ensures exists rec ::
              && AllWithin(Gap(0, rec), rec)
              && RecoveredBy(|Gap(0, rec)|, rec) == [Numbered(1), Numbered(51)]
  {
    var blocks := seq(50, n requires 0 <= n < 50 => Numbered(n + 1));
    var last := Numbered(51);
    var a1 := ChunkAnswer(Got(Some(blocks)), Got(Some([])), [Published, Rejected]);
    var a2 := ChunkAnswer(Got(Some([last])), Got(Some([])), [Published]);
    var rec := Recovery(Got(Some(last)), [a1, a2]);
    OnlyFirst(a1.publish, 50);
    OnlyFirst(a2.publish, 1);
    assert Recovered(a1) == [blocks[0]];
    assert Recovered(a2) == [last];
    assert Attempted(101, 51, rec, 2) == [];
    assert Attempted(51, 51, rec, 1) == [Chunk(51, 51)];
    assert Gap(0, rec) == [Chunk(1, 50), Chunk(51, 51)];
    assert RecoveredBy(1, rec) == RecoveredBy(0, rec) + [blocks[0]];
    assert RecoveredBy(2, rec) == [blocks[0], last];
    assert AllWithin(Gap(0, rec), rec);
  }

  /**
   A batch of blocks may be answered in any order, and is published in that order:
   here everything is fetched and published, and the result is height 1 of two, so
   the live loop publishes height 2 again.
   */
  lemma ReorderedBatchGoesBack()
    ensures exists rec ::
              && AllWithin(Gap(0, rec), rec)
              && RecoveredBy(|Gap(0, rec)|, rec) == [Numbered(2), Numbered(1)]
  {
    var a := ChunkAnswer(Got(Some([Numbered(2), Numbered(1)])), Got(Some([])), [Published, Published]);
    var rec := Recovery(Got(Some(Numbered(2))), [a]);
    assert Prefix(a.publish, 0) == 0 && Prefix(a.publish, 1) == 1 && Prefix(a.publish, 2) == 2;
    assert Recovered(a) == [Numbered(2), Numbered(1)];
    assert Attempted(51, 2, rec, 1) == [];
    assert Gap(0, rec) == [Chunk(1, 2)];
    assert RecoveredBy(1, rec) == RecoveredBy(0, rec) + [Numbered(2), Numbered(1)];
    assert AllWithin(Gap(0, rec), rec);
  }
}
