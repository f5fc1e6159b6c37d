# onchain-mon in Dafny

onchain-mon feeds Ethereum blocks to detection bots and forwards the bots' findings
to notification channels. Several forwarder instances receive every finding, count it
in a shared Redis, and one of them sends it once a quorum of instances has seen it.
This project models that delivery protocol, the feeder's loop and gap recovery, the
Slack link converter, alert truncation and config validation, and proves what each of
them promises. `dafny verify dfyconfig.toml` checks everything.

## The quorum protocol

`QuorumModel` is a transition system for one NATS consumer and any number of
instances. A label is one step: a delivery, one Redis command or one LRU operation of
one instance, the passing of time, an LRU eviction, or a crash. Every Redis command
may fail, with or without having taken effect, and a send may be accepted, refused or
rate-limited. `Exec` gives the state after any sequence of labels, so a lemma about
`Exec(cfg, run)` is about every interleaving. Deliveries are unrestricted, which
covers every redelivery JetStream may make. Time is in milliseconds, keys die at their
deadline, and the counter and its conversion to `uint64` have Go's widths.

`Collect`, `Decide`, `Deliver` and `Debug` are the handler
(`internal/pkg/consumer/consumer.go:189-502`) as a program counter with one command a
step; `CountAfter`, `StatusAfter`, `ClaimScript` and `DedupAfter` are the commands.
`QuorumConsumer` is the same handler as the program has it, a class with its cache and
a shared server object. Each of its operations is proved to be the label that
`QuorumModel` expects at that point, whatever other instances did in between, so the
theorems about runs hold of its executions. `Interleave` stands for the others: only
its contract matters, and the code has nothing to do there.

Assumptions are predicates on runs, and the theorems name the ones they use:

- `PromptRun`: every call in progress started less than 60 s ago. The forwarder's
  `AckWait` is 30 s (`internal/app/forwarder/forwarder.go:66`). `QuorumMinute` shows
  that the bound is exact: with calls of just 60 s, and for every quorum below 2^63-1,
  two handlers hold one key at once and send the same finding at the same time.
- `CoolDownRun`, for one cool-down key: it is read and written without error, and nobody
  dies between its send and its cool-down. `CrashAfterSendRepeatsIt` shows why.
- `LastsUntilSent`, for one key: until the finding is sent, its counter does not expire
  while an instance relies on it, and the counter's first EXPIRE does not fail
  (`LastingRun`: the same for the whole run). `ExpiredCounterLosesFinding` shows
  why. The condition is sufficient, not necessary: by `LostIsForgotten` the findings
  lost in any run are exactly those whose handler was told that the counter does not
  exist, and `LostOnlyWhenGone` needs no more than that nobody is told so. A counter
  that expires and is counted anew before anybody reads it does no harm.
- `TendingRun`, for one key: commands on its counter succeed, and nobody dies between
  INCR and EXPIRE or between DECR and DEL.
- `LeakFree`, for one key: since its counter came to life nothing left an increment
  behind in it (`MayLeak` lists what can).

## Where code and documentation differ

- `Changelog.md:32` and the comment at `internal/app/feeder/feeder.go:171-172` say that
  a failed publish arms the recovery window, so that a long outage is backfilled. The
  next successful fetch clears the window (`feeder.go:128`), and a block that failed to
  publish is fetched again first. `PublishOutageIsNotRecovered` proves that a recovery
  needs two minutes of failed fetches, however long publishing has failed;
  `RecoveryWindow` says exactly when one starts.
- The repository's `README.md:119` gives `QUORUM_SIZE` the default 1. With a quorum of
  one the forwarder can acknowledge a finding nobody sent although no command fails and
  no time passes (`QuorumOfOneLosesFinding`). With two or more, and calls under a minute,
  it can only where the finding's counter expires or its first EXPIRE fails
  (`NoLostFinding`, `ExpiredCounterLosesFinding`).
- The repository's `README.md:13` promises guaranteed delivery. The path without quorum
  acknowledges a finding whose deduplication key exists, and three events leave a key
  that stands for no send: a lost answer of SETNX, a failed DEL after a failed send, and
  a crash between the two. `LostIsOrphaned` proves that these, while the key lives, are
  exactly the cases in which the path loses a finding; each has an instance.
- `Changelog.md:17` says that recovery resumes instead of skipping the gap. A chunk
  published in part and followed by another one is skipped over, and a batch that
  answers out of order, as section 6 of the JSON-RPC 2.0 Specification allows, is
  published out of order: `RecoveredHeights` gives the exact condition,
  `PartialChunkLeavesHole` and `ReorderedBatchGoesBack` instances.
- `internal/pkg/consumer/consumer.go:402` means the cool-down for equal content under
  different keys. It holds once a send is booked (`BookedSendKeepsOff`), and not between
  a send and its booking (`SameContentSentTwice`).

## Model

| member | source | states |
|---|---|---|
| QuorumKeys.KeyTemplates | internal/pkg/consumer/consumer.go:168-169 | count and status keys never coincide, whatever the names, and for one name each determines its unique key |
| QuorumKeys.NamesShareKeys | internal/pkg/consumer/consumer.go:168-169 | two consumers share a count or status key, for some findings, if and only if their names are equal or one followed by ":" starts with the other followed by ":finding:" |
| QuorumKeys.CoolDownTellsApart | internal/pkg/consumer/consumer.go:185-187 | two cool-down keys that differ in one part at most are equal if and only if that part is: bot name, alert id, description or consumer name |
| QuorumKeys.CoolDownIsContent | internal/pkg/consumer/consumer.go:399-403 | findings of one consumer whose bot names and alert ids have no "_" share a cool-down if and only if bot, alert and description are the same |
| QuorumKeys.UnderscoresConfuse | internal/pkg/consumer/consumer.go:185-187 | instance: with a "_" in a name, findings of different bots share a cool-down |
| QuorumFilter.OnlyWantedFindings | internal/pkg/consumer/consumer.go:304-332 | in every run each call in progress works on a finding whose severity and alert id the consumer is configured for, and is on the path without quorum if and only if the consumer is |
| QuorumFilter.DeliveryIsFiltered | internal/pkg/consumer/consumer.go:304-332 | a broken message is terminated, and a finding with another severity or alert id acknowledged, each at once and with no effect on Redis, the cache or any record; a wanted finding starts a call on the configured path |
| QuorumFilter.StepsDoNotTerminate | internal/pkg/consumer/consumer.go:302-501 | no step of a call terminates its message |
| QuorumSteps.StepIsCommand | internal/pkg/consumer/consumer.go:241-501 | a handler step issues one command, which touches one table at the finding's key, and moves only its own call |
| QuorumMutex.StoredStatuses | internal/pkg/consumer/repo.go:30-69 | in every run a stored status is "sending" or "sent" and dies within twelve minutes |
| QuorumMutex.HolderBlocksClaims | internal/pkg/consumer/repo.go:31-42 | while a handler is between its claim and the end of its bookkeeping its status exists and the Lua script refuses everyone |
| QuorumMutex.PromptRunsAreExclusive | internal/pkg/consumer/consumer.go:363-499 | in every run of calls under a minute each holder's status outlives its call, and a key has one holder |
| QuorumMutex.MutualExclusion | internal/pkg/consumer/consumer.go:385-494 | at most one handler per key is between claim and bookkeeping, though late handlers may shorten the status, and with any failures, evictions and crashes |
| QuorumMinute.MinuteLongCallSendsTwice | internal/pkg/consumer/consumer.go:379-397 | for every quorum, with calls of exactly a minute both theorems fail although every command succeeds: two holders, and two sends of one finding at one instant |
| QuorumSends.SendFencesOthers | internal/pkg/consumer/consumer.go:399-415 | when a send is accepted, no other call on the finding can still claim after a stale cool-down check |
| QuorumSends.RunsGuardSends | internal/pkg/consumer/consumer.go:399-499 | in every run each past send is cooled or about to be, and each call on its way to a send is past or fenced off from every earlier one |
| QuorumSends.TimedAtMostOnce | internal/pkg/consumer/consumer.go:363-499 | two accepted sends of one finding are at least thirty minutes apart |
| QuorumLimits.CrashAfterSendRepeatsIt | internal/pkg/consumer/consumer.go:489-499 | for every quorum, an instance that dies after its send, before the cool-down, lets the finding be sent again twelve minutes later |
| QuorumCoolDown.BookedSendKeepsOff | internal/pkg/consumer/consumer.go:399-413 | once a send is booked, a call that has yet to check the cool-down sends nothing of the same content for thirty minutes, under whatever key |
| QuorumCoolDown.BookingCools | internal/pkg/consumer/consumer.go:496-499 | booking makes the cool-down of every earlier send of this content last thirty minutes |
| QuorumLimits.SameContentSentTwice | internal/pkg/consumer/consumer.go:399-413 | before a send is booked, equal content under another key is sent as well, at the same instant |
| QuorumCredits.CreditAccounting | internal/pkg/consumer/consumer.go:244-297 | in every run the counter is at most the number of instances whose increment it holds plus the leaks |
| QuorumCredits.CreditsAreCounts | internal/pkg/consumer/consumer.go:244-256 | each credit goes back to an answered INCR of that instance, with the counter alive ever since and no DECR by that instance after it |
| QuorumCredits.QuorumSoundness | internal/pkg/consumer/repo.go:31-42 | a successful claim rests on quorumSize increments by different instances, less the leaks |
| QuorumCredits.NoLeaks | internal/pkg/consumer/consumer.go:379-393 | while nobody whose increment is in the living counter is evicted, crashes, fails to compensate or takes the "sent" branch, there are no leaks, and a rollback leaves nothing of the instance in the counter |
| QuorumCredits.QuorumReallyReached | internal/pkg/consumer/repo.go:31-42 | if nothing leaked from the counter since it came to life, a successful claim means that quorumSize different instances saw the finding |
| QuorumCounter.CountersInRange | internal/pkg/consumer/consumer.go:245-256 | in every run every counter lies between -1 and the largest 64-bit integer |
| QuorumCounter.CounterLowerBound | internal/pkg/consumer/consumer.go:245-258 | the counter is never below -1, and the uint64 conversion of what INCR answers is exact |
| QuorumCounter.NoImmortalCounts | internal/pkg/consumer/consumer.go:258-273 | a count key without a lifetime has a call in progress that will give it one or delete it |
| QuorumCounter.LifetimesBounded | internal/pkg/consumer/repo.go:82-85 | in every run a counter with a deadline lasts ten more minutes at most, a cool-down thirty and a deduplication key fifteen, and the latter two have one |
| QuorumDelivery.RunsSettle | internal/pkg/consumer/consumer.go:302-501 | in every run a call that acknowledged has settled once, any other call in progress not at all |
| QuorumDelivery.SettledExactlyOnce | internal/pkg/consumer/consumer.go:302-501 | whatever the commands answer, a call that returns issued exactly one of Ack, Nak, NakWithDelay and Term |
| QuorumDelivery.RunsRecordSends | internal/pkg/consumer/consumer.go:489-499 | "sent" and the cool-down key go back to an accepted send |
| QuorumDelivery.LostIsForgotten | internal/pkg/consumer/consumer.go:282-290 | in every run, the findings acknowledged without a send for their key or cool-down key are exactly those forgotten because their counter was gone |
| QuorumDelivery.ForgetsWhatIsGone | internal/pkg/consumer/consumer.go:282-290 | a handler comes to forget a finding exactly when it is told that the counter does not exist |
| QuorumDelivery.LostOnlyWhenGone | internal/pkg/consumer/consumer.go:282-290 | for any quorum and any failures: while nobody is told that the counter of a key is gone, no finding with that key is lost |
| QuorumDelivery.LastingRunsAreAnchored | internal/pkg/consumer/consumer.go:282-297 | with a quorum of two, whoever relies on a counter that lasts finds it, and nobody is about to miss or delete it |
| QuorumDelivery.NoLostFinding | internal/pkg/consumer/consumer.go:282-290 | with a quorum of two, for each key whose own counter lasts until the finding is sent: a finding that passed the filters is acknowledged only after a send for its key or cool-down key, and until then the branch for a missing counter is unreachable |
| QuorumDelivery.RollbacksKeepCounter | internal/pkg/consumer/consumer.go:436-444 | while the counter of a key lasts, DECR never reaches zero and nobody deletes the counter |
| QuorumLimits.ExpiredCounterLosesFinding | internal/pkg/consumer/consumer.go:279-290 | a counter that expires before its quorum lets the instance that counted it acknowledge the finding unsent |
| QuorumLimits.QuorumOfOneLosesFinding | internal/pkg/consumer/consumer.go:436-444 | with a quorum of one, an increment between DECR and DEL loses the finding, with no failure and no time passing |
| QuorumRetry.ReachesSend | internal/pkg/consumer/consumer.go:338-435 | an undisturbed call that completes the quorum, by its own increment or by a redelivery, claims the send in six operations |
| QuorumRetry.SendRollsBack | internal/pkg/consumer/consumer.go:435-479 | from any state at the send with another increment left, a failure takes back one increment, the status, the cache entry and the message |
| QuorumRetry.FailedSendRollsBack | internal/pkg/consumer/consumer.go:435-479 | after a failed send, of a new or a redelivered finding, the instance contributes nothing; if it counted in this call, counter and lifetime are as before; the status is free and the finding ready to be sent again |
| QuorumRetry.LastFailedSendRollsBack | internal/pkg/consumer/consumer.go:439-444 | if it was the only increment the counter goes too, and the finding is as if never seen |
| QuorumRetry.DeliveredSendIsBooked | internal/pkg/consumer/consumer.go:482-499 | after an accepted send the status is "sent" for ten minutes and the cool-down runs for thirty |
| QuorumRetry.RetryUntilSent | internal/pkg/consumer/consumer.go:435-479 | after any number of failed sends of any kind, with any delays that end before the counter expires, the next delivery reaches the send |
| QuorumRetry.RetryAloneUntilSent | internal/pkg/consumer/consumer.go:435-479 | an instance that is the quorum by itself counts and sends again after any number of failures |
| QuorumRetry.RetriesAreRun | internal/pkg/consumer/consumer.go:302-501 | these retries, with their delays, are a part of a run |
| QuorumRetry.LoneRetriesAreRun | internal/pkg/consumer/consumer.go:302-501 | so are those of an instance that is the quorum by itself |
| QuorumRetry.CallIsRun | internal/pkg/consumer/consumer.go:302-501 | an undisturbed call is a part of a run |
| QuorumOutcomes.BelowQuorumIsPutBack | internal/pkg/consumer/consumer.go:353-359 | an undisturbed call below the quorum counts the finding once per instance, and puts it back |
| QuorumOutcomes.SentIsAcknowledged | internal/pkg/consumer/consumer.go:379-397 | a finding sent before is acknowledged and forgotten, and its counter and status last a minute more |
| QuorumOutcomes.CallSettles | internal/pkg/consumer/consumer.go:302-501 | an undisturbed call that finds the quorum collected sends the finding if and only if it is neither claimed nor sent and its content is not cooling down; it acknowledges it if and only if it was sent, by this call or before, and puts it back otherwise |
| QuorumOutcomes.DebugCallSettles | internal/pkg/consumer/consumer.go:189-239 | an undisturbed call without quorum comes to its send if and only if the instance has no key of the finding, and keeps the key if and only if the send is accepted; it acknowledges the finding if and only if it was sent, by this call or before |
| QuorumConsumer.Consumer.Incr | internal/pkg/consumer/consumer.go:245-253 | INCR on the shared table is the run's label, for every outcome |
| QuorumConsumer.Consumer.ExpireCount | internal/pkg/consumer/consumer.go:259-385 | EXPIRE of the count key, on first counting and in the "sent" branch |
| QuorumConsumer.Consumer.ExpireStatus | internal/pkg/consumer/consumer.go:390-393 | EXPIRE of the status key |
| QuorumConsumer.Consumer.DelCount | internal/pkg/consumer/consumer.go:266-440 | DEL of the count key, after a failed EXPIRE and in the rollback |
| QuorumConsumer.Consumer.GetCount | internal/pkg/consumer/consumer.go:282-297 | GET of the counter: missing, unparsable and failed are told apart |
| QuorumConsumer.Consumer.GetStatus | internal/pkg/consumer/repo.go:71-80 | a missing status reads as "not_send", and no fourth status is ever read |
| QuorumConsumer.Consumer.ExistsCoolDown | internal/pkg/consumer/repo.go:87-99 | an error of the cool-down check counts as "no cool-down" |
| QuorumConsumer.Consumer.SetSendingStatus | internal/pkg/consumer/repo.go:30-65 | the script claims if and only if the counter has the quorum and the status is free, with a lifetime of twelve minutes |
| QuorumConsumer.Consumer.Decr | internal/pkg/consumer/consumer.go:436-444 | DECR, and whether the counter is to be deleted |
| QuorumConsumer.Consumer.DelStatus | internal/pkg/consumer/consumer.go:446-449 | DEL of the status key |
| QuorumConsumer.Consumer.SetStatusSent | internal/pkg/consumer/repo.go:67-69 | "sent" for ten minutes |
| QuorumConsumer.Consumer.StartCoolDown | internal/pkg/consumer/repo.go:82-85 | the cool-down key for thirty minutes |
| QuorumConsumer.Consumer.HandleWithoutQuorum | internal/pkg/consumer/consumer.go:189-239 | the debug path follows a run and settles the message once |
| QuorumDebug.DebugAtMostOnce | internal/pkg/consumer/consumer.go:189-206 | an instance's accepted sends of one debug finding are fourteen minutes apart, whatever fails: the key's fifteen less the call |
| QuorumDebugLoss.KeysHaveOneCause | internal/pkg/consumer/consumer.go:194-207 | in every run an existing deduplication key belongs to a call in progress, is orphaned, or stands for an accepted send in its life: exactly one of the three |
| QuorumDebugLoss.OrphanedExactly | internal/pkg/consumer/consumer.go:194-207 | a key exists with no call at work on it and no accepted send in its life if and only if a lost SETNX answer, a DEL without effect or a crash orphaned it and it has lived since |
| QuorumDebugLoss.LostIsOrphaned | internal/pkg/consumer/consumer.go:201-238 | in every run a debug finding is acknowledged with an accepted send, by this call or in its key's life, if and only if its key is no orphan |
| QuorumDebugLoss.NoDebugFindingLost | internal/pkg/consumer/consumer.go:189-239 | without those three events every debug acknowledgement has its accepted send |
| QuorumDebugLoss.LostAnswerLosesDebugFinding | internal/pkg/consumer/consumer.go:194-204 | instance: the answer of SETNX is lost, and the redelivered finding is acknowledged unsent |
| QuorumDebugLoss.FailedDelLosesDebugFinding | internal/pkg/consumer/consumer.go:206-207 | instance: send and DEL fail, and the redelivered finding is acknowledged unsent |
| QuorumDebugLoss.CrashLosesDebugFinding | internal/pkg/consumer/consumer.go:194-206 | instance: a crash between SETNX and send, and the redelivered finding is acknowledged unsent |
| QuorumConsumer.Consumer.CollectQuorumCount | internal/pkg/consumer/consumer.go:241-300 | counts a finding once per instance, following a run; when it is done the message is settled once |
| QuorumConsumer.Consumer.RollBack | internal/pkg/consumer/consumer.go:435-479 | the rollback, command by command, following a run |
| QuorumConsumer.Consumer.ClaimAndSend | internal/pkg/consumer/consumer.go:399-499 | cool-down, claim, send and bookkeeping, following a run |
| QuorumConsumer.Consumer.HandleQuorum | internal/pkg/consumer/consumer.go:363-500 | the three status branches, following a run; exhaustive |
| QuorumConsumer.Consumer.Consume | internal/pkg/consumer/consumer.go:302-501 | every execution of the handler is a stretch of a run with exactly one delivery to this instance, of this message, followed by the steps of this call and nothing else of the instance; it settles the message once, as that run says: a broken message with Term and an unwanted finding with Ack, both without a step |
| Chain.DoRpcRequest | internal/pkg/chain/chain.go:56-132 | a value is never nil; an empty result is final and told apart, errors are retried up to six times |
| Chain.CombineReceipts | internal/pkg/chain/chain.go:178-192 | the first error of a batch, or all receipts in order |
| Chain.CombineBlocks | internal/pkg/chain/chain.go:256-270 | the first error of a batch, or all blocks in order |
| Chain.BlocksAreAnswers | internal/pkg/chain/chain.go:256-270 | all blocks are those answered: each is at the place its response has among the responses with a block, and there are no others |
| Chain.GroupByBlock | internal/app/feeder/feeder.go:274-280 | each hash gets exactly its receipts, in order |
| Chain.BatchKeepsReceipts | internal/pkg/chain/chain.go:178-192 | in whatever order a batch answers, combining and grouping gives every block its own receipts, complete and in their order |
| FeederBlocks.BuildBlockDto | internal/app/feeder/feeder.go:331-370 | the document reads back as the block and, in order, each of its receipts with each of its logs |
| FeederBlocks.DocumentReadsBack | internal/app/feeder/feeder.go:331-370 | a decoder from documents to blocks, receipts and logs inverts the construction; a receipt's own block hash comes back where it is the block's |
| FeederBlocks.BatchEqualsLive | internal/app/feeder/feeder.go:264-286 | recovery builds the document the live loop builds |
| FeederBlocks.ChunkPublishesAsLive | internal/app/feeder/feeder.go:252-307 | block by block a chunk publishes what the live loop would have published |
| FeederRun.PublishedIsLive | internal/app/feeder/feeder.go:62-307 | in every run whose receipts are those of the chain, live or batched in any order, each published document is its block with exactly the block's receipts, and reads back as them |
| FeederBlocks.RecoverBlockRange | internal/app/feeder/feeder.go:252-307 | publishes a chunk up to the first failure and returns the last block published; an error means none was, and says whether the blocks, the receipts or the first publish failed |
| FeederBlocks.RecoverMissedBlocks | internal/app/feeder/feeder.go:204-248 | terminates; asks for the ranges of the gap, publishes what they recover, returns the last block published, and an error if and only if nothing was; says exactly when the latest block is missing or not ahead |
| FeederRecovery.RangesPartitionGap | internal/app/feeder/feeder.go:219-241 | when no chunk fails the ranges partition the gap in order, each of at most fifty heights, as many as it takes |
| FeederRecovery.RecoveredHeights | internal/app/feeder/feeder.go:219-247 | whichever blocks of the gap are answered, in any order: the heights published are exactly the ones after fromBlock up to the result, if and only if each chunk published in order from its first height and each one followed by published blocks published all |
| FeederRecovery.PartialChunkLeavesHole | internal/app/feeder/feeder.go:286-292 | a chunk published in part is skipped over |
| FeederRecovery.ReorderedBatchGoesBack | internal/pkg/chain/chain.go:256-264 | a batch answered in another order makes the recovery end on a lower height than it published |
| FeederRun.Feeder.UpdateTickerAfterBlock | internal/app/feeder/feeder.go:400-406 | the timer is set to the next block's due time, a second at least |
| FeederRun.Feeder.OnTick | internal/app/feeder/feeder.go:79-192 | one tick moves the loop's variables, publishes and arms the timer exactly once, as `TurnOf` says; `TickAnswers` and `RecoveryAnswers` say what that is |
| FeederRun.Feeder.Run | internal/app/feeder/feeder.go:62-195 | the loop over any ticks goes through the states the theorems below are about |
| FeederRun.TickAnswers | internal/app/feeder/feeder.go:79-192 | in every run, a tick outside a recovery moves on if and only if it got a new block and its receipts and the publish was accepted or the document too large; it publishes the document if and only if the publish was accepted; in every other case it asks for the same again in two seconds. The window opens and closes exactly with failed and successful fetches and rejected publishes |
| FeederRun.RecoveryAnswers | internal/app/feeder/feeder.go:103-121 | a recovery ends on the last block it published or with a reset, publishes exactly what its chunks recover, and closes the window |
| FeederRun.HandledIsPublishedOrOversized | internal/app/feeder/feeder.go:139-192 | in every run each height handled outside a recovery was published or answered as too large, and after a rejection the next tick asks for the same height |
| FeederRun.DelayIsDue | internal/app/feeder/feeder.go:400-406 | the timer fires 12.5 s after the block's timestamp, or in a second if that is later |
| FeederRun.Contiguity | internal/app/feeder/feeder.go:75-193 | between two resets the heights published or skipped are consecutive, each handled once, if and only if no recovery is out of sequence |
| FeederRun.StatesAreHeights | internal/app/feeder/feeder.go:75-193 | prevBlockNumber is the last height handled since the reset |
| FeederRun.RecoveryWindow | internal/app/feeder/feeder.go:91-128 | a recovery starts if and only if fetching the next block fails more than two minutes after the window was set, with no successful fetch and no recovery since |
| FeederRun.PublishOutageIsNotRecovered | internal/app/feeder/feeder.go:171-180 | however long publishing fails, a recovery starts only when fetching fails, and more than two minutes after the last tick that fetched its block |
| FeederRun.ArmedOncePerTick | internal/app/feeder/feeder.go:79-192 | in every run each tick arms the timer exactly once, for a second at least and for 12.5 s at most while no block is from the future |
| SlackLinks.ParseLink | internal/pkg/notifiler/converter.go:64-101 | succeeds if and only if a link starts here, and returns its url, text and end |
| SlackLinks.LinkUnique | internal/pkg/notifiler/converter.go:69-98 | the decomposition of a link is unique |
| SlackLinks.AdjustMarkdownLinks | internal/pkg/notifiler/converter.go:5-62 | the output is the rendered tokenization, shorter by one rune per converted link; each link of the text stands in it, where its turn is, as its url and its text in Slack's brackets with a bar between them, and code and single runes stand there unchanged |
| SlackLinks.OutputReadsBack | internal/pkg/notifiler/converter.go:14-62 | a reader of Slack's form, defined on the output alone, finds every converted link at its place and returns its url and text if and only if the url has no bar and the text no ">"; everything else is found unchanged, in order |
| SlackLinks.LinkReadsBack | internal/pkg/notifiler/converter.go:45-50 | Slack reads a written link back if and only if the url has no bar and the text no ">" |
| SlackLinks.TokenKinds | internal/pkg/notifiler/converter.go:14-59 | a token is fenced code where a fence starts, else inline code where a backtick is, else a link if and only if one starts there, else a single rune |
| SlackLinks.TokensAreTheText | internal/pkg/notifiler/converter.go:14-59 | the tokens' sources make up the input, and rendering shortens it by exactly one rune per link |
| SlackLinks.LengthLaw | internal/pkg/notifiler/converter.go:45-53 | rendering any tokens shortens them by one rune per link |
| SlackLinks.ScanFence | internal/pkg/notifiler/converter.go:15-26 | the loop over fenced code ends where the token does |
| SlackLinks.FenceEndsFirst | internal/pkg/notifiler/converter.go:18-24 | fenced code ends with the first closing fence, or at the end if there is none |
| SlackLinks.ScanInline | internal/pkg/notifiler/converter.go:29-41 | the loop over inline code ends where the token does |
| SlackLinks.InlineEndsFirst | internal/pkg/notifiler/converter.go:32-40 | inline code ends with the first backtick behind an even number of backslashes, or at the end if there is none |
| Truncate.GuardIsRedundant | internal/pkg/notifiler/format_alert.go:72-75 | once there is room for leading text, the second guard holds |
| Truncate.ShortIsUntouched | internal/pkg/notifiler/format_alert.go:60-63 | a message within the limit is returned as it is |
| Truncate.CutWithoutMarker | internal/pkg/notifiler/format_alert.go:65-68 | without a marker the result has exactly the limit's length: the warning, a line break and the first bytes of the message |
| Truncate.CutAtLastMarker | internal/pkg/notifiler/format_alert.go:70-79 | the text from the last marker on survives as a suffix, with the warning before it; the result is within the limit if and only if tail, warning and a line break are, and fills it where leading text is kept |
| NotifyConfig.SplitParts | internal/env/notify_config.go:143 | splitting a subject and joining it is the identity, and no part holds a separator |
| NotifyConfig.ValidSubjectForm | internal/env/notify_config.go:143-154 | a subject is valid if and only if it begins with three non-empty parts without dots, and ends there or goes on with a dot |
| NotifyConfig.DurableNameForm | internal/env/notify_config.go:159 | the durable name on a subject is team, consumer name and bot, in this order, and where none has a "_" it splits into them |
| NotifyConfig.EveryRoute | internal/pkg/consumer/consumer.go:105-163 | every subject of every consumer entry has its route, at its place |
| NotifyConfig.ValidateUniqueConsumerNames | internal/env/notify_config.go:171-195 | accepts if and only if the names are non-empty and distinct |
| NotifyConfig.ValidateChannelRefs | internal/env/notify_config.go:197-242 | accepts if and only if every consumer's type is known and has a channel with its id |
| NotifyConfig.DeriveSets | internal/env/notify_config.go:250-273 | accepts if and only if there are severities and all are known; then fills in the two sets |
| NotifyConfig.ValidateSeverities | internal/env/notify_config.go:244-276 | the same for all consumers |
| NotifyConfig.ValidateSubjects | internal/env/notify_config.go:132-169 | accepts if and only if every consumer has subjects, all are valid, and all durable names are distinct |
| NotifyConfig.ValidateConfig | internal/env/notify_config.go:104-128 | accepts if and only if the config is valid; an error is one of the first check that fails |
| NotifyStartup.NewNotificationChannels | internal/env/notification_channels.go:19-81 | each map holds, for every id of its list and no other, the last channel with that id |
| NotifyStartup.NewConsumers | internal/pkg/consumer/consumer.go:93-166 | one consumer per consumer entry and subject, in order, unless some route allows none |
| NotifyStartup.AcceptedIsMakeable | internal/env/notify_config.go:104-128 | every route of an accepted config can be made into a consumer |
| NotifyStartup.Start | internal/pkg/consumer/consumer.go:93-166 | after validation the construction cannot fail; each consumer has its route's subject, names are pairwise distinct, severity sets non-empty, sets, quorum and quorum size as configured, and its channel is one of its own kind with the configured id |
| NotifyStartup.CollectNatsSubjects | internal/env/notify_config.go:278-294 | exactly the subjects of some consumer entry, sorted and without duplicates |
| NotifyStartup.SortedUnique | internal/env/notify_config.go:287-292 | such a list is determined by its elements, so the map's order does not matter |

## Left out

- HTTP senders (Telegram, Discord, Slack, OpsGenie): a send is accepted, refused or rate-limited as the environment likes. OpsGenie accepts low severities without sending; that counts as a send.
- NATS and JetStream: deliveries are arbitrary. MaxDeliver and BackOff (`internal/app/forwarder/forwarder.go:69-75`) only restrict them, so the safety theorems cover them; that a message is redelivered at all is not proved.
- Redis beyond the commands used: commands are atomic and keys die exactly at their deadline. A command is issued once: the client's own retries (`MaxRetries: 5`, `internal/connectors/redis/redis.go:33`), which may apply a command more than once before it is answered, are not modelled. A command that fails may have taken effect.
- SHA-256 is taken to be injective: the description and the cool-down key stand for their hashes. Cool-down statements are about the joined key: `QuorumKeys.CoolDownIsContent` says when that is the content, `UnderscoresConfuse` gives a case where it is not.
- The LRU's capacity and ten-minute expiry: any entry may be evicted at any moment. The number of touches it stores is only logged.
- Quorum findings that pass the filters with a unique key shorter than four bytes: the handler slices the key for a log line (`internal/pkg/consumer/consumer.go:346`) and panics there, so `Loggable` excludes them.
- One model run is one consumer: that other consumers keep off its keys is assumed. Validation makes their names distinct (`NotifyStartup.Start`), which is not enough for names with a colon; `QuorumKeys.NamesShareKeys` gives the exact condition. Cool-down and debug keys are hashes that include the consumer's name, and are taken not to coincide.
- The debug key of the path without quorum is indexed by instance and unique key, as its template names the source, which must differ between instances.
- Heights above 2^63-51: `FeederBlocks.InRange` keeps the recovery loop clear of the 64-bit wrap-around, which the loop does not guard against.
- FeederRun.Contiguity: assumes that the node answers a request for height n with block n, and a batch only with blocks it was asked for.
- The hexadecimal numbers of blocks, receipts and logs are taken as parsed; a number that does not parse is read as zero by the program.
- JSON, zstd, the retry delays, HTTP and the wall clock's source: environment.
- Slack text is a sequence of runes and truncation works on bytes; decoding of malformed UTF-8, and cuts inside a UTF-8 sequence, are not modelled.
- FormatAlert, shortenHex, Telegram escaping, metrics, logging, health routes and environment reading: only easy members.
