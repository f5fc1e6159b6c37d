/**
 The documents the feeder publishes, and the recovery of the blocks missed during an
 outage, in chunks. The RPC node and the publisher answer as they like.
 */
module FeederBlocks {
  import opened Wrappers
  import opened GoInts
  import opened Chain

  const RECOVER_CHUNK_SIZE := 50
  const RECOVERY_WINDOW := 120_000
  const RETRY_TICK := 2_000
  const ETA_NEXT_BLOCK := 12_000
  const DELAY_NEXT_BLOCK := 500

  /** Oversized covers both size limits NATS checks before it sends. */
  datatype PublishResult = Published | Oversized | Rejected

  predicate IsUnpublishable(p: PublishResult) {
    p.Oversized?
  }

  // ----- the published document -----

  datatype LogDto = LogDto(
    address: string, blockHash: string, blockNumber: int, data: string, logIndex: int,
    removed: bool, topics: seq<string>, transactionHash: string, transactionIndex: int)

  datatype ReceiptDto = ReceiptDto(logs: seq<LogDto>, to: string, from: string, transactionHash: string)

  datatype BlockDto = BlockDto(hash: string, number: int, parentHash: string, receipts: seq<ReceiptDto>, timestamp: int)

  function LogDtoOf(l: Log): LogDto {
    LogDto(l.address, l.blockHash, l.blockNumber, l.data, l.logIndex, l.removed, l.topics,
           l.transactionHash, l.transactionIndex)
  }

  function ReceiptDtoOf(r: Receipt): ReceiptDto {
    ReceiptDto(seq(|r.logs|, j requires 0 <= j < |r.logs| => LogDtoOf(r.logs[j])), r.to, r.from, r.transactionHash)
  }

  function BlockDtoOf(b: Block, receipts: seq<Receipt>): BlockDto {
    BlockDto(b.hash, b.number, b.parentHash,
             seq(|receipts|, n requires 0 <= n < |receipts| => ReceiptDtoOf(receipts[n])), b.timestamp)
  }

  // ----- reading a document -----

  function LogOf(d: LogDto): Log {
    Log(d.address, d.topics, d.data, d.blockNumber, d.transactionHash, d.transactionIndex, d.blockHash,
        d.logIndex, d.removed)
  }

  /** The receipt a document holds; its block hash is that of the document's block. */
  function ReceiptOf(d: ReceiptDto, blockHash: string): Receipt {
    Receipt(blockHash, d.from, d.to, d.transactionHash, seq(|d.logs|, j requires 0 <= j < |d.logs| => LogOf(d.logs[j])))
  }

  function ReceiptsOf(d: BlockDto): seq<Receipt> {
    seq(|d.receipts|, n requires 0 <= n < |d.receipts| => ReceiptOf(d.receipts[n], d.hash))
  }

  function BlockOf(d: BlockDto): Block {
    Block(d.number, d.hash, d.parentHash, d.timestamp)
  }

  lemma ReceiptReadsBack(r: Receipt)
    ensures ReceiptOf(ReceiptDtoOf(r), r.blockHash) == r
  {
    var back := ReceiptOf(ReceiptDtoOf(r), r.blockHash);
    assert |back.logs| == |r.logs| && forall j | 0 <= j < |r.logs| :: back.logs[j] == r.logs[j];
    assert back.logs == r.logs;
  }

  /**
   Publishing loses and confuses nothing: the document reads back as the block, and,
   where the receipts name it, as exactly the receipts and logs it was built from, in
   their order.
   */
  lemma DocumentReadsBack(b: Block, receipts: seq<Receipt>)
    ensures BlockOf(BlockDtoOf(b, receipts)) == b
    ensures |ReceiptsOf(BlockDtoOf(b, receipts))| == |receipts|
    ensures forall n | 0 <= n < |receipts| ::
              ReceiptsOf(BlockDtoOf(b, receipts))[n] == receipts[n].(blockHash := b.hash)
    ensures (forall x | x in receipts :: x.blockHash == b.hash) ==> ReceiptsOf(BlockDtoOf(b, receipts)) == receipts
  {
    hide ReceiptDtoOf, ReceiptOf;
    forall n | 0 <= n < |receipts|
      ensures ReceiptsOf(BlockDtoOf(b, receipts))[n] == receipts[n].(blockHash := b.hash)
    {
      ReceiptReadsBack(receipts[n].(blockHash := b.hash));
      SameDocument(receipts[n], b.hash);
    }
    assert (forall x | x in receipts :: x.blockHash == b.hash) ==>
        forall n | 0 <= n < |receipts| :: receipts[n].(blockHash := b.hash) == receipts[n];
  }

  lemma SameDocument(r: Receipt, hash: string)
    ensures ReceiptDtoOf(r.(blockHash := hash)) == ReceiptDtoOf(r)
  {
    assert ReceiptDtoOf(r.(blockHash := hash)).logs == ReceiptDtoOf(r).logs;
  }

  method BuildBlockDto(b: Block, blockReceipts: seq<Receipt>) returns (dto: BlockDto)
    ensures dto == BlockDtoOf(b, blockReceipts)
    ensures BlockOf(dto) == b && |ReceiptsOf(dto)| == |blockReceipts|
    ensures forall n | 0 <= n < |blockReceipts| :: ReceiptsOf(dto)[n] == blockReceipts[n].(blockHash := b.hash)
  {
    DocumentReadsBack(b, blockReceipts);
    var receipts: seq<ReceiptDto> := [];
    for n := 0 to |blockReceipts|
      invariant |receipts| == n
      invariant forall m | 0 <= m < n :: receipts[m] == ReceiptDtoOf(blockReceipts[m])
    {
      var receipt := blockReceipts[n];
      var logs: seq<LogDto> := [];
      for j := 0 to |receipt.logs|
        invariant |logs| == j
        invariant forall m | 0 <= m < j :: logs[m] == LogDtoOf(receipt.logs[m])
      {
        var l := receipt.logs[j];
        logs := logs + [LogDto(l.address, l.blockHash, l.blockNumber, l.data, l.logIndex,
                               l.removed, l.topics, l.transactionHash, l.transactionIndex)];
      }
      assert logs == ReceiptDtoOf(receipt).logs;
      receipts := receipts + [ReceiptDto(logs, receipt.to, receipt.from, receipt.transactionHash)];
    }
    dto := BlockDto(b.hash, b.number, b.parentHash, receipts, b.timestamp);
  }

  /**
   The document recovery builds for a block from a batch equals the one the live
   loop builds from that block's own receipts, whatever order the batch answers in.
   */
  lemma BatchEqualsLive(b: Block, raw: seq<RpcResponse<seq<Receipt>>>, hashes: seq<string>,
                        answers: map<string, seq<Receipt>>)
    requires Answers(raw, hashes, answers) && b.hash in hashes
    ensures FirstError(raw) == None
    ensures BlockDtoOf(b, OfBlock(Receipts(raw), b.hash)) == BlockDtoOf(b, answers[b.hash])
  {
    var m :| 0 <= m < |hashes| && hashes[m] == b.hash;
    BatchKeepsReceipts(raw, hashes, answers, m);
  }

  // ----- recovery of one chunk -----

  /** Why a recovery, or one chunk of it, published nothing. */
  datatype RecoverError =
    | NoLatestBlock | EmptyResponse | NotBehind | RecoveredNoBlocks
    | BlocksUnavailable | NoBlocksReturned | ReceiptsUnavailable | PublishFailed

  /** What the node and the publisher do with one chunk; a publish beyond the list is rejected. */
  datatype ChunkAnswer = ChunkAnswer(
    blocks: Answer<Option<seq<Block>>>,
    receipts: Answer<Option<seq<Receipt>>>,
    publish: seq<PublishResult>)

  predicate Accepts(publish: seq<PublishResult>, n: nat) {
    n < |publish| && publish[n].Published?
  }

  /** How many blocks are published before the first failure. */
  function Prefix(publish: seq<PublishResult>, size: nat): (n: nat)
    ensures n <= size
    ensures forall j: nat | j < n :: Accepts(publish, j)
    ensures n < size ==> !Accepts(publish, n)
  {
    if size == 0 then 0
    else
      var n := Prefix(publish, size - 1);
      if n == size - 1 && Accepts(publish, n) then size else n
  }

  /** The blocks of a chunk, if they and their receipts could be fetched. */
  function Fetched(a: ChunkAnswer): seq<Block> {
    if a.blocks.Got? && a.blocks.value.Some? && a.receipts.Got? then a.blocks.value.value else []
  }

  /** The blocks of a chunk that get published. */
  function Recovered(a: ChunkAnswer): seq<Block> {
    Fetched(a)[..Prefix(a.publish, |Fetched(a)|)]
  }

  /** The last block, if any. */
  function LastOf(blocks: seq<Block>): Option<Block> {
    if blocks == [] then None else Some(blocks[|blocks| - 1])
  }

  /** The documents published for these blocks, given all receipts of the chunk. */
  function Dtos(blocks: seq<Block>, receipts: seq<Receipt>): seq<BlockDto> {
    seq(|blocks|, n requires 0 <= n < |blocks| => BlockDtoOf(blocks[n], OfBlock(receipts, blocks[n].hash)))
  }

  function ChunkReceipts(a: ChunkAnswer): seq<Receipt> {
    if a.receipts.Got? then a.receipts.value.GetOr([]) else []
  }

  function Hashes(blocks: seq<Block>): seq<string> {
    seq(|blocks|, n requires 0 <= n < |blocks| => blocks[n].hash)
  }

  /**
   Whatever a chunk publishes is, block by block, what the live loop would have
   published: the batch may answer in any order, and publishing may stop anywhere.
   */
  lemma ChunkPublishesAsLive(a: ChunkAnswer, raw: seq<RpcResponse<seq<Receipt>>>, answers: map<string, seq<Receipt>>)
    requires Answers(raw, Hashes(Fetched(a)), answers) && ChunkReceipts(a) == Receipts(raw)
    ensures var dtos := Dtos(Recovered(a), ChunkReceipts(a));
            && |dtos| == |Recovered(a)| <= |Fetched(a)|
            && forall n | 0 <= n < |dtos| ::
                 && Fetched(a)[n].hash in answers
                 && dtos[n] == BlockDtoOf(Fetched(a)[n], answers[Fetched(a)[n].hash])
  {
    hide Answers, BlockDtoOf;
    forall n | 0 <= n < |Recovered(a)|
      ensures Fetched(a)[n].hash in answers
      ensures BlockDtoOf(Fetched(a)[n], OfBlock(Receipts(raw), Fetched(a)[n].hash))
              == BlockDtoOf(Fetched(a)[n], answers[Fetched(a)[n].hash])
    {
      assert Hashes(Fetched(a))[n] == Fetched(a)[n].hash;
      AnswersCover(raw, Hashes(Fetched(a)), answers, Fetched(a)[n].hash);
      BatchEqualsLive(Fetched(a)[n], raw, Hashes(Fetched(a)), answers);
    }
  }

  lemma AnswersCover(raw: seq<RpcResponse<seq<Receipt>>>, hashes: seq<string>,
                     answers: map<string, seq<Receipt>>, h: string)
    requires Answers(raw, hashes, answers) && h in hashes
    ensures h in answers
  {
  }

  lemma DtosGrow(blocks: seq<Block>, n: nat, receipts: seq<Receipt>)
    requires n < |blocks|
    ensures Dtos(blocks[..n + 1], receipts) ==
            Dtos(blocks[..n], receipts) + [BlockDtoOf(blocks[n], OfBlock(receipts, blocks[n].hash))]
  {
    hide BlockDtoOf, OfBlock;
  }

  lemma NoDtos(receipts: seq<Receipt>)
    ensures Dtos([], receipts) == []
  {
  }

  /** The first n blocks of a chunk, which were published, are all of it that is. */
  lemma RecoveredIs(a: ChunkAnswer, n: nat)
    requires n <= |Fetched(a)| && (forall j: nat | j < n :: Accepts(a.publish, j))
    requires n < |Fetched(a)| ==> !Accepts(a.publish, n)
    ensures Recovered(a) == Fetched(a)[..n]
  {
    assert Prefix(a.publish, |Fetched(a)|) == n;
  }

  /** Publishes a chunk up to the first failure; an error means that nothing of it was published. */
  method RecoverBlockRange(a: ChunkAnswer) returns (r: Result<Block, RecoverError>, published: seq<BlockDto>)
    ensures published == Dtos(Recovered(a), ChunkReceipts(a))
    ensures LastOf(Recovered(a)) == if r.Ok? then Some(r.value) else None
    ensures r == Err(BlocksUnavailable) <==> a.blocks.Failed?
    ensures r == Err(NoBlocksReturned) <==> a.blocks.Got? && a.blocks.value.GetOr([]) == []
    ensures r == Err(ReceiptsUnavailable) <==> a.blocks.Got? && a.blocks.value.GetOr([]) != [] && a.receipts.Failed?
    ensures r.Ok? <==>
              a.blocks.Got? && a.blocks.value.GetOr([]) != [] && a.receipts.Got? && Accepts(a.publish, 0)
    ensures r.Err? ==>
              && published == []
              && (r.error.BlocksUnavailable? || r.error.NoBlocksReturned? || r.error.ReceiptsUnavailable?
                  || r.error.PublishFailed?)
  {
    hide Dtos, Recovered, BlockDtoOf, Accepts;
    NoDtos(ChunkReceipts(a));
    if Fetched(a) == [] {
      RecoveredIs(a, 0);
    }
    published := [];
    if a.blocks.Failed? {
      return Err(BlocksUnavailable), [];
    }
    if a.blocks.value.None? || |a.blocks.value.value| == 0 {
      return Err(NoBlocksReturned), [];
    }
    var blocks := a.blocks.value.value;
    if a.receipts.Failed? {
      return Err(ReceiptsUnavailable), [];
    }
    var receiptsByBlock := GroupByBlock(a.receipts.value.GetOr([]));
    var latestPubBlock := None;
    assert blocks[..0] == [];
    for n := 0 to |blocks|
      invariant published == Dtos(blocks[..n], ChunkReceipts(a))
      invariant forall j: nat | j < n :: Accepts(a.publish, j)
      invariant latestPubBlock == if n == 0 then None else Some(blocks[n - 1])
    {
      var block := blocks[n];
      var dto := BuildBlockDto(block, if block.hash in receiptsByBlock then receiptsByBlock[block.hash] else []);
      if !Accepts(a.publish, n) {
        RecoveredIs(a, n);
        if latestPubBlock.Some? {
          return Ok(latestPubBlock.value), published;
        }
        return Err(PublishFailed), [];
      }
      latestPubBlock := Some(block);
      DtosGrow(blocks, n, ChunkReceipts(a));
      published := published + [dto];
    }
    RecoveredIs(a, |blocks|);
    assert blocks[..|blocks|] == blocks;
    r := Ok(latestPubBlock.value);
  }

  // ----- recovery of a gap -----

  datatype Chunk = Chunk(from: int, to: int)

  /** The node's answers during one recovery: the latest block, and the chunks in the order they are asked for. */
  datatype Recovery = Recovery(latest: Answer<Option<Block>>, chunks: seq<ChunkAnswer>) {
    function At(n: nat): ChunkAnswer {
      if n < |chunks| then chunks[n] else ChunkAnswer(Failed(false), Failed(false), [])
    }
  }

  function Min(a: int, b: int): int {
    if a < b then a else b
  }

  function ChunkAt(from: int, latest: int): Chunk {
    Chunk(from, Min(from + RECOVER_CHUNK_SIZE - 1, latest))
  }

  /** The ranges asked for from a height on, the first being request n, until one publishes nothing. */
  function Attempted(from: int, latest: int, rec: Recovery, n: nat): seq<Chunk>
    decreases latest - from
  {
    if from > latest then []
    else if Recovered(rec.At(n)) == [] then [ChunkAt(from, latest)]
    else [ChunkAt(from, latest)] + Attempted(from + RECOVER_CHUNK_SIZE, latest, rec, n + 1)
  }

  /** The blocks published by the first n requests. */
  function RecoveredBy(n: nat, rec: Recovery): seq<Block> {
    if n == 0 then [] else RecoveredBy(n - 1, rec) + Recovered(rec.At(n - 1))
  }

  /** The documents published by the first n requests. */
  function DtosBy(n: nat, rec: Recovery): seq<BlockDto> {
    if n == 0 then [] else DtosBy(n - 1, rec) + Dtos(Recovered(rec.At(n - 1)), ChunkReceipts(rec.At(n - 1)))
  }

  /** The gap a recovery walks, when the node's latest block is ahead. */
  function Gap(fromBlock: int, rec: Recovery): seq<Chunk> {
    if rec.latest.Got? && rec.latest.value.Some? && rec.latest.value.value.number > fromBlock
    then Attempted(fromBlock + 1, rec.latest.value.value.number, rec, 0)
    else []
  }

  /** Heights stay clear of the end of the 64-bit range. */
  predicate InRange(fromBlock: int, rec: Recovery) {
    && INT64_MIN <= fromBlock < INT64_MAX
    && (rec.latest.Got? && rec.latest.value.Some? ==>
          rec.latest.value.value.number <= INT64_MAX - RECOVER_CHUNK_SIZE)
  }

  /** n requests published these documents, and this is the last block among them. */
  predicate Walked(n: nat, published: seq<BlockDto>, last: Option<Block>, rec: Recovery) {
    published == DtosBy(n, rec) && last == LastOf(RecoveredBy(n, rec))
  }

  lemma WalkedStep(n: nat, published: seq<BlockDto>, last: Option<Block>, rec: Recovery)
    requires Walked(n, published, last, rec)
    ensures var a := rec.At(n);
            && Walked(n + 1, published + Dtos(Recovered(a), ChunkReceipts(a)),
                      if LastOf(Recovered(a)).None? then last else LastOf(Recovered(a)), rec)
            && (LastOf(Recovered(a)).None? <==> Recovered(a) == [])
  {
    var a, b := RecoveredBy(n, rec), Recovered(rec.At(n));
    assert b == [] ==> a + b == a;
  }

  lemma {:induction false} OneDtoPerBlock(n: nat, rec: Recovery)
    ensures |DtosBy(n, rec)| == |RecoveredBy(n, rec)|
  {
    if n > 0 {
      OneDtoPerBlock(n - 1, rec);
    }
  }

  /** There is no last block if and only if nothing was published. */
  lemma WalkedInVain(n: nat, published: seq<BlockDto>, last: Option<Block>, rec: Recovery)
    requires Walked(n, published, last, rec)
    ensures last.None? <==> published == []
  {
    OneDtoPerBlock(n, rec);
  }

  /** These ranges are done, and the walk from here completes the gap. */
  predicate Ahead(ranges: seq<Chunk>, from: int, latest: int, rec: Recovery, gap: seq<Chunk>) {
    ranges + Attempted(from, latest, rec, |ranges|) == gap
  }

  lemma AheadStep(ranges: seq<Chunk>, from: int, latest: int, rec: Recovery, gap: seq<Chunk>)
    requires Ahead(ranges, from, latest, rec, gap) && from <= latest
    ensures var c := ChunkAt(from, latest);
            if Recovered(rec.At(|ranges|)) == [] then ranges + [c] == gap
            else Ahead(ranges + [c], from + RECOVER_CHUNK_SIZE, latest, rec, gap)
  {
    var c, rest := ChunkAt(from, latest), Attempted(from + RECOVER_CHUNK_SIZE, latest, rec, |ranges| + 1);
    assert ranges + ([c] + rest) == (ranges + [c]) + rest;
  }

  lemma AheadEnds(ranges: seq<Chunk>, from: int, latest: int, rec: Recovery, gap: seq<Chunk>)
    requires Ahead(ranges, from, latest, rec, gap) && from > latest
    ensures ranges == gap
  {
  }

  lemma GapStarts(fromBlock: int, rec: Recovery)
    ensures Walked(0, [], None, rec)
    ensures if rec.latest.Got? && rec.latest.value.Some? && rec.latest.value.value.number > fromBlock
            then Ahead([], fromBlock + 1, rec.latest.value.value.number, rec, Gap(fromBlock, rec))
            else Gap(fromBlock, rec) == []
  {
  }

  lemma ChunkEnd(from: int, latest: int)
    requires INT64_MIN <= from <= latest <= INT64_MAX - RECOVER_CHUNK_SIZE
    ensures ChunkAt(from, latest) == Chunk(from, Min(Int64(from + RECOVER_CHUNK_SIZE - 1), latest))
  {
    NoWrap(from + RECOVER_CHUNK_SIZE - 1);
  }

  /**
   Walks the gap in chunks. Its result is the last block published, and it is an
   error if and only if nothing was.
   */
  method RecoverMissedBlocks(fromBlock: int, rec: Recovery)
    returns (r: Result<Block, RecoverError>, published: seq<BlockDto>, ranges: seq<Chunk>)
    requires InRange(fromBlock, rec)
    ensures ranges == Gap(fromBlock, rec)
    ensures Walked(|ranges|, published, if r.Ok? then Some(r.value) else None, rec)
    ensures r.Err? <==> published == []
    ensures r == Err(NoLatestBlock) <==> rec.latest.Failed?
    ensures r == Err(EmptyResponse) <==> rec.latest == Got(None)
    ensures r == Err(NotBehind) <==>
              rec.latest.Got? && rec.latest.value.Some? && rec.latest.value.value.number <= fromBlock
  {
    hide Int64, Ahead, Attempted, Walked, Recovered, ChunkReceipts, Dtos, LastOf, ChunkAt, Gap, Recovery.At;
    GapStarts(fromBlock, rec);
    published, ranges := [], [];
    if rec.latest.Failed? {
      return Err(NoLatestBlock), [], [];
    }
    if rec.latest.value.None? {
      return Err(EmptyResponse), [], [];
    }
    var latestNumber := rec.latest.value.value.number;
    if latestNumber <= fromBlock {
      return Err(NotBehind), [], [];
    }
    var latestPubBlock: Option<Block> := None;
    NoWrap(fromBlock + 1);
    var from := Int64(fromBlock + 1);
    ghost var gap := Gap(fromBlock, rec);
    while from <= latestNumber
      invariant INT64_MIN <= from <= latestNumber + RECOVER_CHUNK_SIZE
      invariant Ahead(ranges, from, latestNumber, rec, gap)
      invariant Walked(|ranges|, published, latestPubBlock, rec)
      decreases latestNumber - from
    {
      var to := Min(Int64(from + RECOVER_CHUNK_SIZE - 1), latestNumber);
      ChunkEnd(from, latestNumber);
      var lastInChunk, chunkDtos := RecoverBlockRange(rec.At(|ranges|));
      AheadStep(ranges, from, latestNumber, rec, gap);
      WalkedStep(|ranges|, published, latestPubBlock, rec);
      ranges, published := ranges + [Chunk(from, to)], published + chunkDtos;
      WalkedInVain(|ranges|, published, if lastInChunk.Ok? then Some(lastInChunk.value) else latestPubBlock, rec);
      if lastInChunk.Err? {
        if latestPubBlock.Some? {
          return Ok(latestPubBlock.value), published, ranges;
        }
        return Err(lastInChunk.error), published, ranges;
      }
      latestPubBlock := Some(lastInChunk.value);
      NoWrap(from + RECOVER_CHUNK_SIZE);
      from := Int64(from + RECOVER_CHUNK_SIZE);
    }
    AheadEnds(ranges, from, latestNumber, rec, gap);
    WalkedInVain(|ranges|, published, latestPubBlock, rec);
    if latestPubBlock.None? {
      return Err(RecoveredNoBlocks), published, ranges;
    }
    r := Ok(latestPubBlock.value);
  }
}
