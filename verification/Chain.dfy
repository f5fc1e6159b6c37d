/** The JSON-RPC client: the contract of one request, and the combination of batched answers. */
module Chain {
  import opened Wrappers

  const MAX_ATTEMPTS := 6

  /** Numbers are taken as parsed from their hexadecimal text. */
  datatype Block = Block(number: int, hash: string, parentHash: string, timestamp: int)

  datatype Log = Log(
    address: string, topics: seq<string>, data: string, blockNumber: int,
    transactionHash: string, transactionIndex: int, blockHash: string, logIndex: int, removed: bool)

  datatype Receipt = Receipt(blockHash: string, from: string, to: string, transactionHash: string, logs: seq<Log>)

  datatype RpcResponse<+T> = RpcResponse(id: string, result: Option<T>, error: Option<string>)

  /** A request either has a value, or failed; an empty response is told apart. */
  datatype Answer<+T> = Got(value: T) | Failed(empty: bool)

  // ----- one request with retries -----

  datatype Attempt<+T> = Broken | Replied(response: RpcResponse<T>)

  predicate Transient<T>(a: Attempt<T>) {
    a.Broken? || a.response.error.Some?
  }

  predicate Decides<T>(attempt: nat -> Attempt<T>, i: nat) {
    i < MAX_ATTEMPTS && !Transient(attempt(i)) && forall j: nat | j < i :: Transient(attempt(j))
  }

  /**
   Errors are retried, an empty result is not. A value is never nil, so callers
   may use it without checking.
   */
  method DoRpcRequest<T>(attempt: nat -> Attempt<T>) returns (r: Answer<T>)
    ensures r.Got? <==> exists i :: Decides(attempt, i) && attempt(i).response.result.Some?
    ensures r == Failed(true) <==> exists i :: Decides(attempt, i) && attempt(i).response.result.None?
    ensures forall i | Decides(attempt, i) && r.Got? :: attempt(i).response.result == Some(r.value)
  {
    var i: nat := 0;
    while i < MAX_ATTEMPTS
      invariant i <= MAX_ATTEMPTS
      invariant forall j: nat | j < i :: Transient(attempt(j))
    {
      var a := attempt(i);
      if !Transient(a) {
        assert Decides(attempt, i);
        if a.response.result.None? {
          return Failed(true);
        }
        return Got(a.response.result.value);
      }
      i := i + 1;
    }
    r := Failed(false);
  }

  // ----- batches -----

  /** The first error of a batch, if any. */
  function FirstError<T>(raw: seq<RpcResponse<T>>): Option<string> {
    if raw == [] then None
    else if raw[0].error.Some? then raw[0].error
    else FirstError(raw[1..])
  }

  lemma {:induction false} FirstErrorAt<T>(raw: seq<RpcResponse<T>>, n: nat)
    requires n < |raw| && raw[n].error.Some?
    requires forall j | 0 <= j < n :: raw[j].error.None?
    ensures FirstError(raw) == raw[n].error
  {
    if n > 0 {
      FirstErrorAt(raw[1..], n - 1);
    }
  }

  lemma {:induction false} NoErrorNowhere<T>(raw: seq<RpcResponse<T>>)
    requires forall j | 0 <= j < |raw| :: raw[j].error.None?
    ensures FirstError(raw) == None
  {
    if raw != [] {
      NoErrorNowhere(raw[1..]);
    }
  }

  /** All receipts of a batch, in the order of the responses. */
  function Receipts(raw: seq<RpcResponse<seq<Receipt>>>): seq<Receipt> {
    if raw == [] then [] else Receipts(raw[..|raw| - 1]) + raw[|raw| - 1].result.GetOr([])
  }

  /** All blocks of a batch; responses without a block are left out. */
  function Blocks(raw: seq<RpcResponse<Block>>): seq<Block> {
    if raw == [] then []
    else Blocks(raw[..|raw| - 1]) + if raw[|raw| - 1].result.Some? then [raw[|raw| - 1].result.value] else []
  }

  /** How many of these responses hold a block. */
  function Answered(raw: seq<RpcResponse<Block>>): nat {
    if raw == [] then 0 else Answered(raw[..|raw| - 1]) + if raw[|raw| - 1].result.Some? then 1 else 0
  }

  /** Combining keeps every block that was answered, at its place among the answers, and nothing else. */
  lemma {:induction false} BlocksAreAnswers(raw: seq<RpcResponse<Block>>)
    ensures |Blocks(raw)| == Answered(raw)
    ensures forall n | 0 <= n < |raw| && raw[n].result.Some? ::
              Answered(raw[..n]) < |Blocks(raw)| && Blocks(raw)[Answered(raw[..n])] == raw[n].result.value
  {
    if raw != [] {
      var m := |raw| - 1;
      var before := raw[..m];
      BlocksAreAnswers(before);
      forall n | 0 <= n < |raw| && raw[n].result.Some?
        ensures Answered(raw[..n]) < |Blocks(raw)| && Blocks(raw)[Answered(raw[..n])] == raw[n].result.value
      {
        if n < m {
          assert before[..n] == raw[..n] && before[n] == raw[n];
        }
      }
    }
  }

  method CombineReceipts(raw: seq<RpcResponse<seq<Receipt>>>) returns (r: Result<seq<Receipt>, string>)
    ensures match FirstError(raw) case Some(e) => r == Err(e) case None => r == Ok(Receipts(raw))
  {
    var combined: seq<Receipt> := [];
    for n := 0 to |raw|
      invariant combined == Receipts(raw[..n])
      invariant forall j | 0 <= j < n :: raw[j].error.None?
    {
      if raw[n].error.Some? {
        FirstErrorAt(raw, n);
        return Err(raw[n].error.value);
      }
      assert raw[..n + 1][..n] == raw[..n];
      if raw[n].result.Some? {
        combined := combined + raw[n].result.value;
      }
    }
    NoErrorNowhere(raw);
    assert raw[..|raw|] == raw;
    r := Ok(combined);
  }

  method CombineBlocks(raw: seq<RpcResponse<Block>>) returns (r: Result<seq<Block>, string>)
    ensures match FirstError(raw) case Some(e) => r == Err(e) case None => r == Ok(Blocks(raw))
  {
    var blocks: seq<Block> := [];
    for n := 0 to |raw|
      invariant blocks == Blocks(raw[..n])
      invariant forall j | 0 <= j < n :: raw[j].error.None?
    {
      if raw[n].error.Some? {
        FirstErrorAt(raw, n);
        return Err(raw[n].error.value);
      }
      assert raw[..n + 1][..n] == raw[..n];
      if raw[n].result.Some? {
        blocks := blocks + [raw[n].result.value];
      }
    }
    NoErrorNowhere(raw);
    assert raw[..|raw|] == raw;
    r := Ok(blocks);
  }

  // ----- grouping what was combined -----

  /** The receipts of one block, in order. */
  function OfBlock(receipts: seq<Receipt>, hash: string): seq<Receipt> {
    if receipts == [] then []
    else OfBlock(receipts[..|receipts| - 1], hash)
         + if receipts[|receipts| - 1].blockHash == hash then [receipts[|receipts| - 1]] else []
  }

  lemma {:induction false} OfBlockConcat(a: seq<Receipt>, b: seq<Receipt>, hash: string)
    ensures OfBlock(a + b, hash) == OfBlock(a, hash) + OfBlock(b, hash)
  {
    if b == [] {
      assert a + b == a;
    } else {
      assert (a + b)[..|a + b| - 1] == a + b[..|b| - 1];
      OfBlockConcat(a, b[..|b| - 1], hash);
    }
  }

  lemma {:induction false} OfOwnBlock(receipts: seq<Receipt>, hash: string)
    requires forall x | x in receipts :: x.blockHash == hash
    ensures OfBlock(receipts, hash) == receipts
  {
    if receipts != [] {
      OfOwnBlock(receipts[..|receipts| - 1], hash);
      assert receipts == receipts[..|receipts| - 1] + [receipts[|receipts| - 1]];
    }
  }

  lemma {:induction false} OfOtherBlock(receipts: seq<Receipt>, hash: string)
    requires forall x | x in receipts :: x.blockHash != hash
    ensures OfBlock(receipts, hash) == []
  {
    if receipts != [] {
      OfOtherBlock(receipts[..|receipts| - 1], hash);
    }
  }

  /** The loop that groups receipts by block hash. */
  method GroupByBlock(receipts: seq<Receipt>) returns (byBlock: map<string, seq<Receipt>>)
    ensures forall h: string :: (if h in byBlock then byBlock[h] else []) == OfBlock(receipts, h)
  {
    byBlock := map[];
    for n := 0 to |receipts|
      invariant forall h: string :: (if h in byBlock then byBlock[h] else []) == OfBlock(receipts[..n], h)
    {
      var x := receipts[n];
      assert receipts[..n + 1][..n] == receipts[..n];
      byBlock := byBlock[x.blockHash := (if x.blockHash in byBlock then byBlock[x.blockHash] else []) + [x]];
    }
    assert receipts[..|receipts|] == receipts;
  }

  // ----- the order of batched responses -----

  /** The response a node gives for the receipts of one block. */
  function ReceiptsResponse(hash: string, answers: map<string, seq<Receipt>>): RpcResponse<seq<Receipt>>
    requires hash in answers
  {
    RpcResponse(hash, Some(answers[hash]), None)
  }

  function ReceiptsResponses(hashes: seq<string>, answers: map<string, seq<Receipt>>): seq<RpcResponse<seq<Receipt>>>
    requires forall h | h in hashes :: h in answers
  {
    seq(|hashes|, n requires 0 <= n < |hashes| => ReceiptsResponse(hashes[n], answers))
  }

  /** The batch answers every hash once, in any order, with receipts that carry their block's hash. */
  ghost predicate Answers(raw: seq<RpcResponse<seq<Receipt>>>, hashes: seq<string>,
                          answers: map<string, seq<Receipt>>)
  {
    && (forall h | h in hashes :: h in answers && forall x | x in answers[h] :: x.blockHash == h)
    && (forall i, j | 0 <= i < j < |hashes| :: hashes[i] != hashes[j])
    && multiset(raw) == multiset(ReceiptsResponses(hashes, answers))
  }

  /** Only responses of its own block contribute to a block's receipts. */
  lemma {:induction false} ReceiptsOfBlock(raw: seq<RpcResponse<seq<Receipt>>>, hash: string, own: seq<Receipt>)
    requires forall p | p in raw :: p.result.Some? && forall x | x in p.result.value :: x.blockHash == p.id
    requires forall p | p in raw && p.id == hash :: p == RpcResponse(hash, Some(own), None)
    requires multiset(raw)[RpcResponse(hash, Some(own), None)] <= 1
    ensures OfBlock(Receipts(raw), hash) == if RpcResponse(hash, Some(own), None) in raw then own else []
  {
    if raw != [] {
      var n, p := |raw| - 1, raw[|raw| - 1];
      assert raw == raw[..n] + [p];
      assert forall q | q in raw[..n] :: q in raw;
      assert p in raw;
      ReceiptsOfBlock(raw[..n], hash, own);
      OfBlockConcat(Receipts(raw[..n]), p.result.value, hash);
      if p.id == hash {
        OfOwnBlock(p.result.value, hash);
        assert p !in raw[..n] by {
          assert multiset(raw)[p] == multiset(raw[..n])[p] + 1;
        }
      } else {
        OfOtherBlock(p.result.value, hash);
      }
    }
  }

  /** In whatever order a batch answers, combining and grouping gives each block its own receipts, in their order. */
  lemma BatchKeepsReceipts(raw: seq<RpcResponse<seq<Receipt>>>, hashes: seq<string>,
                           answers: map<string, seq<Receipt>>, m: nat)
    requires Answers(raw, hashes, answers) && m < |hashes|
    ensures FirstError(raw) == None
    ensures OfBlock(Receipts(raw), hashes[m]) == answers[hashes[m]]
  {
    var all := ReceiptsResponses(hashes, answers);
    var own := answers[hashes[m]];
    forall p | p in raw ensures exists n :: 0 <= n < |hashes| && p == ReceiptsResponse(hashes[n], answers) {
      assert p in multiset(raw) && p in multiset(all);
    }
    forall j | 0 <= j < |raw| ensures raw[j].error.None? {
      assert raw[j] in raw;
    }
    NoErrorNowhere(raw);
    OnceInAll(hashes, answers, m);
    assert all[m] in multiset(raw);
    ReceiptsOfBlock(raw, hashes[m], own);
  }

  lemma OnceInAll(hashes: seq<string>, answers: map<string, seq<Receipt>>, m: nat)
    requires m < |hashes| && forall h | h in hashes :: h in answers
    requires forall i, j | 0 <= i < j < |hashes| :: hashes[i] != hashes[j]
    ensures var all := ReceiptsResponses(hashes, answers);
            multiset(all)[all[m]] == 1
  {
    var all := ReceiptsResponses(hashes, answers);
    assert all == all[..m] + [all[m]] + all[m + 1..];
    assert all[m] !in all[..m] && all[m] !in all[m + 1..];
  }
}
