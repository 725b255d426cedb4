# AI Dev Club backend: verified models

Dafny models of the parts of the backend where correctness depends on more than one function: the notification outbox
and its RabbitMQ pipeline, the daily ranking boards, the Markdown chunkers and the lexical encoder, and the stores that
keep counters, sessions and comment trees. `dafny verify dfyconfig.toml` checks the whole project.

| file | what it models |
|---|---|
| `Notification.dfy` | drafts, stored notifications, the idempotent insert, the sync and outbox modes |
| `Outbox.dfy`, `OutboxRuns.dfy` | the outbox table and the worker's batch; all runs of its statements by any workers with any clocks |
| `Confirms.dfy` | one AMQP channel in confirm mode: what a nil error from a publish means |
| `RetryPolicy.dfy`, `Consumer.dfy` | retry headers and queues; the consumer loop with its acks and scheduled copies |
| `Pipeline.dfy`, `PipelineSafety.dfy`, `PipelineOnce.dfy`, `PipelineModes.dfy`, `PipelineOutbox.dfy`, `PipelineContents.dfy`, `PipelineDelivery.dfy` | the whole pipeline as a state machine of 24 steps; no loss, exactly-once effect, separation of the modes, its table as a run of the outbox statements, what messages and notifications carry, deliverability |
| `RankingScore.dfy`, `RankingRaces.dfy`, `RankingCache.dfy`, `RankingList.dfy`, `RankingMetrics.dfy` | scores, interleaved Redis commands, the Top-5 snapshot, page building, the latency histogram |
| `Text.dfy`, `Chunker.dfy`, `Splitting.dfy`, `Headings.dfy`, `LinePacking.dfy`, `Lexical.dfy` | splitting and estimating text, the two chunkers, where sections are cut, headings and paths, the sparse vector |
| `RateLimit.dfy`, `Sessions.dfy`, `Comments.dfy`, `CommentTree.dfy`, `Tags.dfy`, `TagService.dfy` | the limiter, refresh tokens, comments, tag and reaction counters |

Code that changes state in place is a class whose methods are proved against functions on its value; the properties are
lemmas about those functions, over every input and, where there is concurrency, over every run of enabled steps. Times
are integers in milliseconds; clocks, tokens, event ids and the outcome of every call to MySQL, Redis and RabbitMQ are
parameters.

## What is assumed

- Tokens and event ids are fresh and not empty. A payload decodes to what was encoded.
- One SQL statement or transaction is atomic. `MarkRetry` is two statements and two steps; every other service or
  repository call of the counter, session and comment models is one step.
- Durable queues keep confirmed messages; an unconfirmed one may be lost. The broker confirms a message at most once,
  and a returned message's Basic.Return is dispatched before its confirm.
- singleflight runs at most one function per key at a time and hands its result to everyone who joined.
- No Redis call fails in the ranking models, and a ranking call reads the clock once. A Redis key is gone from the
  millisecond of its expiry on.
- White space is neither a Han letter nor a word character, and newline, carriage return and space are white space; the
  classes are otherwise arbitrary; for `HeadingExactly`, a hash is not white space,
  and for `EstimateBoundsLowered`, lowering a letter keeps its class.

## What turned out not to hold

- A score equals the plain sum of its changes only while no prefix sums below zero (`ScoreIsPlainSum`).
- With the two commands of `AddScore` interleaved the board is not always the serial one. It is, all the way through a run,
  if and only if no increment adds points to a member whose score is negative and no removal finds a score that has become
  positive (`SerialUnlessDisturbed`); each cause has a witness (`LateRemovalLosesPoints`, `NegativeScoreSwallowsPoint`).
- The fixed window admits up to 2*limit - 1 calls in an interval as long as the window (`LimiterBound`,
  `LimiterBoundTight`); it keeps the limit on every run if and only if the limit is at most one (`LimitKeptExactly`).
- A page that removes members makes the next page skip as many (`NextPage`).
- The p95 is read while refreshes are recorded, the count first and the buckets after it. It is 0 if and only if nothing is
  counted or fewer than 19 are found in the buckets for each counted one that is missing there (`P95`, `HalfRecorded`).
- Snapshots are ten seconds apart exactly when singleflight is enabled (`SpacingNeedsSingleflight`).
- A header counting the largest 64-bit integer wraps around and is retried instead of dead-lettered (`DeadLetteredExactly`).
- A Han letter behind another word character is swallowed by the word token, which is exactly when there are fewer
  lexical tokens than the estimate says (`EstimateBoundsLowered`).
- The five-minute cap of the publisher's backoff never applies (`DelayNeverCapped`).
- Point ids are distinct over all slots of all articles up to one, ids beginning at 1, if and only if that one's product
  fits in 64 bits (`InjectiveExactly`).
- A channel that is kept after a failed call can answer for a later message: exactly when the first confirm it still
  carries is an ack and no return is waiting (`NilExactly`, `LeftoverAnswers`). The code discards the channel.

## Model

| member | source | states |
|---|---|---|
| Notification.InsertOnce | internal/repo/notification.go:22-27 | afterwards the event is stored, earlier rows are untouched, at most one row is added, unique event ids stay unique, and a stored event changes nothing |
| Notification.NoticeTable.CreateFromOutboxEvent | internal/repo/notification.go:22-27 | the table becomes exactly the result of the conflict-ignoring insert |
| Notification.Process | internal/service/notification_outbox.go:104-118 | succeeds exactly for a payload that decodes to an event with id, user, type and title and whose insert goes through; then the notification is stored, otherwise nothing changes |
| Notification.RedeliveryIsIdempotent | internal/service/notification_outbox.go:104-118 | handling an event any positive number of times equals handling it once |
| Notification.Service.EnqueueInTx | internal/service/notification.go:57-76 | fails exactly in outbox mode with something to deliver and no repository, no event id, or a failing insert; writes one row exactly when it succeeds in that mode for a deliverable draft |
| Notification.Service.DeliverAfterCommit | internal/service/notification.go:78-83 | adds a notification exactly in sync mode, for a deliverable draft, when the best-effort insert succeeds |
| Notification.Service.Interact | internal/service/article.go:339-379 | own writes, enqueue and commit as one transaction, then the delivery: committed exactly when all of them go through; outbox mode writes only an outbox row, sync mode only a notification, neither without a commit or about one's own action |
| Outbox.DelayNeverCapped | internal/repo/notification_outbox.go:79-82 | delays are 2^min(n,8) seconds, never fall as n grows, reach 256 s exactly from the ninth failure, and stay below the cap |
| Outbox.LeaseExcludes | internal/repo/notification_outbox.go:36-49 | a leased row can be claimed again exactly once the lease has run out |
| OutboxRuns.LeaseHolds | internal/repo/notification_outbox.go:32-59 | whatever others do and whatever their clocks show, a claimed row without a later claim or effective mark can be claimed again exactly from the end of its lease on |
| OutboxRuns.HistoryDecides | internal/repo/notification_outbox.go:32-101 | on every run the history of a row's events alone tells when it can be claimed (at once when new or re-opened, from the end of its lease, from 2^min(n-1,8) seconds after its n-th failure, never when published), under which token it can be marked, its failures, last error and publication time |
| OutboxRuns.BackoffHolds | internal/repo/notification_outbox.go:74-101 | after an effective failure the row can be claimed exactly from the failure's time plus its delay on, until it is claimed or re-opened, whatever else happens |
| Outbox.Table.ClaimNext | internal/repo/notification_outbox.go:32-59 | claims nothing exactly when no unlocked row is eligible; else the least eligible id, and changes only its status, lease and token |
| Outbox.Table.MarkPublished | internal/repo/notification_outbox.go:61-72 | takes effect exactly when the row is publishing under this token; otherwise an error and no change |
| Outbox.Table.RecordRetry | internal/repo/notification_outbox.go:87-100 | the second statement: same fence; writes the count read before plus one and the backoff time |
| Outbox.Table.MarkRetry | internal/repo/notification_outbox.go:74-101 | both statements in a row: effective exactly under the held token, with the row's own count raised by one |
| Outbox.Worker.RunOne | internal/service/notification_outbox.go:73-96 | idle exactly when nothing is claimable; otherwise serves the least claimable row to published or rescheduled |
| Outbox.Worker.RunBatch | internal/service/notification_outbox.go:55-71 | publishes exactly as many rows as it reports, at most the limit and in id order; stopping short without an error means nothing is left to claim |
| OutboxRuns.TokenNeverReturns | internal/repo/notification_outbox.go:32-101 | on every run, a token that does not hold its row never holds it again |
| OutboxRuns.SupersededMarkFails | internal/repo/notification_outbox.go:61-101 | after a later claim or effective mark on the row, a mark with the old token affects no row, for arbitrary worker clocks and any steps in between |
| OutboxRuns.FencedRuns | internal/repo/notification_outbox.go:32-101 | on every run at most one mark takes effect between two claims, retry_count is the number of effective failures although it is read and written in separate statements, and a row has a token exactly while publishing |
| OutboxRuns.ClaimsLeaseApart | internal/repo/notification_outbox.go:32-59 | under a clock that never goes back, two claims of a row with no effective mark in between are at least the first one's lease apart, whatever else happens |
| OutboxRuns.FailuresBackOff | internal/repo/notification_outbox.go:74-101 | under the same clock, the n-th recorded failure is at least the first n-1 delays after the first, on every run |
| OutboxRuns.SumDelaysClosed | internal/repo/notification_outbox.go:79-82 | closed form of that sum: 2^n - 1 seconds up to the eighth delay, 256 s for each later one |
| Confirms.AlignedCall | internal/service/notification_mq.go:324-376 | from a drained channel, nil means exactly that the message's own confirm was a timely ack, it was not returned, and the connection still stood; the channel is drained again |
| Confirms.SessionAligned | internal/service/notification_mq.go:102-130 | over any run of a channel nil is returned only for accepted messages, and only the last call can fail |
| Confirms.LeavesNothing | internal/service/notification_mq.go:333-376 | a call whose message's frames were all dispatched leaves nothing of them on the channel, whether it succeeds or fails, except exactly when it takes a nack while the return is waiting too |
| Confirms.NilExactly | internal/service/notification_mq.go:333-376 | whatever a channel carries from before, a call can return nil if and only if no return is waiting and the first confirm it can take is an ack |
| Confirms.LeftoverAnswers | internal/service/notification_mq.go:333-376 | a confirm left from an earlier call decides for the next message, whatever the broker says of that one |
| Confirms.KeepingTheChannelMisaligns | internal/service/notification_mq.go:333-336 | a witness of that: after a cancelled call on a kept channel, its late ack reports a rejected message as accepted |
| Confirms.Publisher.AwaitConfirmation | internal/service/notification_mq.go:333-376 | the nested selects leave exactly the channel contents and answer that the alignment lemmas are about |
| Confirms.Publisher.PublishConfirmed | internal/service/notification_mq.go:324-331 | write, then await, with the same tie |
| RetryPolicy.DeadLetteredExactly | internal/service/notification_mq.go:220-255 | for every header type and value: dead-lettered exactly from 8 on, the largest 64-bit integer excepted; a missing or foreign header counts nothing, an unsigned one beyond int64 counts as negative |
| RetryPolicy.FailureStep | internal/service/notification_mq.go:220-240 | the copy carries the count plus one as an int32, and goes to the dead-letter queue exactly from count eight on |
| RetryPolicy.NinthFailureIsDead | internal/service/notification_mq.go:220-255 | a message that always fails, with no count, waits 1, 1, 5, 5, 30, 30, 30 and 30 seconds and is dead at the ninth failure; from a count of any header type the waits before it are left out, a negative one adds waits of a second |
| Consumer.CopiesHandled | internal/service/notification_mq.go:193-240 | one delivery leaves one copy fewer exactly when inserted and acked, one more exactly when the broker took a scheduled copy but its confirm or the ack of the original failed, and touches no other event; the loop goes on exactly after an ack, and the notification is stored exactly if the insert went through |
| Consumer.CopiesShelved | internal/service/notification_mq.go:220-240 | whatever fails: copies with one or two failures go to the queue of 1 s, with three or four to that of 5 s, with five to eight to that of 30 s, with nine to the dead-letter queue, event and draft unchanged, each queue filled at its tail and served from its head |
| Consumer.NothingDropped | internal/service/notification_mq.go:193-240 | whatever fails, an event stored or queued before is stored or queued after, and none is stored twice |
| Consumer.QueueDrained | internal/service/notification_mq.go:193-218 | without faults the main queue empties and every well-formed message in it is stored |
| Consumer.Connection.Consume | internal/service/notification_mq.go:193-218 | the delivery loop does exactly what those lemmas are about, and ends at the first delivery it cannot hand on |
| Consumer.Connection.Deliver | internal/service/notification_mq.go:204-215 | one delivery: processing and ack, else the retry path, else the end of the loop with the delivery back in its queue |
| Consumer.Connection.ProcessBeforeAck | internal/service/notification_outbox.go:120-125 | acks exactly after a successful insert; a failed ack leaves the insert done and the delivery unacknowledged |
| Consumer.Connection.RetryOrDeadLetter | internal/service/notification_mq.go:220-240 | the copy goes to the queue of its attempt, confirmed or not; the original is acked only after the confirm, and any failure ends the loop with the original kept |
| PipelineSafety.NoEventLost | internal/service/notification_mq.go:193-240 | on every run with crashes, lost confirms, lease expiry, redelivery and re-opening, a committed event is pending, publishing, stored, or in a confirmed copy |
| PipelineSafety.DrainedMeansStored | internal/service/notification_outbox.go:73-96 | once no queue holds a published event, its notification exists |
| PipelineSafety.ScheduleStable | internal/service/notification_mq.go:236-239 | confirming a scheduled copy before the original is acked keeps every event accounted for |
| PipelineSafety.StepSafe | internal/service/notification_mq.go:193-240 | each of the 24 steps keeps the safety invariant |
| PipelineOnce.StoredAtMostOnce | internal/service/notification_outbox.go:104-118 | on every run an event id has at most one notification, from a committed row and with exactly the enqueued draft |
| PipelineModes.ModesApart | internal/service/notification.go:57-83 | on every run, the modes switched at will, the direct notifications are exactly the drafts delivered while in sync mode, and every outbox row was committed while in outbox mode |
| PipelineModes.OneModeOnePath | internal/service/notification.go:42-47 | without a switch, sync runs have no outbox row and outbox runs no direct notification |
| PipelineOnce.DeadAfterNine | internal/service/notification_mq.go:220-240 | on every run a message is in the dead-letter queue exactly when it counts nine failures, and waits in the queue its count calls for otherwise |
| PipelineOnce.StepOnce | internal/repo/notification.go:22-27 | each step keeps uniqueness, provenance and placement |
| PipelineOutbox.RowsByStatements | internal/repo/notification_outbox.go:32-101 | on every run of the pipeline its table is the result of a run of the outbox statements, and the history of a row decides when it can be claimed and what it counts |
| PipelineContents.NobodyNotifiedOfOwnAction | internal/service/notification.go:57-83 | on every run no notification addresses its own actor, and one of an event names a user, a type and a title |
| PipelineContents.NoRetryWithoutFailure | internal/service/notification_mq.go:193-240 | on every run a message counts at most as many failures as deliveries of its event have failed: nothing waits before a first failure or is dead-lettered before a ninth |
| PipelineContents.NothingIsRecalled | internal/service/notification_mq.go:193-240 | what a publisher or consumer wrote or began can take effect after it failed, crashed or lost the delivery |
| PipelineDelivery.AlwaysDeliverable | internal/repo/notification_outbox.go:32-101 | after any run a committed event can still be delivered, with its own draft stored, its row published and no copy left over, if and only if the draft names a user, a type and a title; published ones after re-opening |
| PipelineDelivery.StillDeliverable | internal/service/notification_outbox.go:73-96 | a claimable event with complete data is delivered by seven undisturbed steps |
| RankingScore.ScoreIsMaxSuffix | internal/service/content_ranking.go:177-196 | after any changes a score is the largest suffix sum, the empty one included |
| RankingScore.ScoreIsPlainSum | internal/service/content_ranking.go:177-196 | it is the plain sum if and only if no prefix sums below zero |
| RankingScore.DaysEndAtSixteen | internal/service/content_ranking.go:149-167 | a day ends at the first 16:00 UTC after a moment, and moments have the same date exactly between the same two of these |
| RankingScore.ViewKeyOutlivesDay | internal/service/content_ranking.go:159-167 | a view key lives through its UTC+8 day and at most one second longer |
| RankingScore.EachViewerOnce | internal/service/content_ranking.go:199-216 | over looks on any days in any order, an item gains on each day exactly one point for each distinct signed-in viewer of that day |
| RankingScore.Board.AddScore | internal/service/content_ranking.go:177-196 | one clamped addition, other members untouched, board strictly positive and set to expire |
| RankingScore.Board.RecordView | internal/service/content_ranking.go:199-216 | counts exactly a signed-in user without a live key, and then adds one point |
| RankingRaces.NonPositiveIsLeaving | internal/service/content_ranking.go:177-196 | in every interleaving of the commands a member at most zero has a removal pending, and no score exceeds the serial one |
| RankingRaces.QuiescentBoard | internal/service/content_ranking.go:177-196 | a board nobody is changing is strictly positive and has an expiry |
| RankingRaces.SerialCall | internal/service/content_ranking.go:177-196 | an undisturbed call of two commands is one clamped addition |
| RankingRaces.SerialUnlessDisturbed | internal/service/content_ranking.go:177-196 | an interleaving shows the serial scores throughout if and only if no increment adds points to a negative member and no removal finds a positive one |
| RankingRaces.ThroughoutMeansAlways | internal/service/content_ranking.go:177-196 | that agreement holds after every prefix of the run |
| RankingRaces.UndisturbedScores | internal/service/content_ranking.go:177-224 | the serial scores are those of the increments since the last removal or expiry, in order, and an undisturbed run shows exactly them |
| RankingRaces.LateRemovalLosesPoints | internal/service/content_ranking.go:184-188 | a witness for the one cause: a removal takes five points added after it was decided |
| RankingRaces.NegativeScoreSwallowsPoint | internal/service/content_ranking.go:179-188 | a witness for the other: a member not yet removed swallows a point, no removal finding a positive score |
| RankingCache.RebuildsSpaced | internal/service/content_ranking.go:294-352 | with singleflight at most one rebuild runs, and stored snapshots are at least 10 s apart |
| RankingCache.AnswersFresh | internal/service/content_ranking.go:294-352 | every answer, to a first look, a rebuilding or a joined request, is a snapshot stored less than 10 s before the answer was settled, or the empty page of a failed rebuild |
| RankingCache.FreshLook | internal/service/content_ranking.go:131-136 | a request is answered from the last snapshot at once exactly while that is less than 10 s old |
| RankingCache.NobodyForgotten | internal/service/content_ranking.go:329-349 | whoever asked is on the way or answered, and whoever joined has a refresh running to wait for |
| RankingCache.SpacingNeedsSingleflight | internal/service/content_ranking.go:322-344 | all runs are spaced if and only if singleflight is enabled |
| RankingCache.TwoRebuildsAtOnce | internal/service/content_ranking.go:322-328 | a run without it that stores two snapshots at once |
| RankingList.NextPage | internal/service/content_ranking.go:233-285 | after a page is built, listing continues past as many further members as were removed; the next page is the due one if and only if nothing was removed or the board has ended |
| RankingList.PagesTile | internal/service/content_ranking.go:233-235 | the first n pages are the first n times size members of the board, in order |
| RankingList.PageRemovesUntitled | internal/service/content_ranking.go:259-285 | a page takes from the board exactly its members without an article; what is left is the board less the page plus what it shows |
| RankingList.ShownFaithful | internal/service/content_ranking.go:274-284 | a page shows exactly its members with a visible article, each once, by falling score |
| RankingList.Ranking.Hydrate | internal/service/content_ranking.go:270-284 | the loop removes exactly the members without an article and counts each once |
| RankingList.Ranking.ListArticlesUncached | internal/service/content_ranking.go:259-292 | the reported total is the size of the board that is left; the snapshot changes exactly for the first page of five, and nothing changes on an error |
| RankingList.Ranking.ListArticles | internal/service/content_ranking.go:294-352 | a fresh snapshot is returned untouched for the first page of five, every other request reads the board; on an error the page is empty and board and snapshot stay |
| RankingMetrics.RankIsCeiling | internal/service/content_ranking.go:92-92 | the integer target is the ceiling of 0.95 n, between 1 and n |
| RankingMetrics.FirstReaching | internal/service/content_ranking.go:93-104 | the bucket where the running total first reaches a rank holds the element of that rank of the sorted durations |
| RankingMetrics.Metrics.RecordRefreshDuration | internal/service/content_ranking.go:71-82 | count, sum and exactly the bucket of the duration grow |
| RankingMetrics.Metrics.Scan | internal/service/content_ranking.go:91-104 | stops at the first bucket where the running total reaches the target, and runs off the end if and only if there is none |
| RankingMetrics.Metrics.P95 | internal/service/content_ranking.go:84-111 | for any durations the scan finds in the buckets and any count loaded before it, more or less of them, the bound of the bucket of the element of rank ceil(0.95 count), the overflow bucket reported as 2000; 0 if and only if nothing is counted or fewer than 19 are found for each counted one that is missing |
| RankingMetrics.Metrics.HalfRecorded | internal/service/content_ranking.go:71-104 | the scan runs off the end if and only if fewer than 19 are found for each counted one that is missing |
| Text.LinesJoin | internal/service/markdown_chunker.go:30-30 | joining the lines of a split text gives the text back |
| Text.ParagraphsJoin | internal/service/markdown_chunker.go:78-78 | the same for paragraphs, with overlapping separators found from the left |
| Text.ParagraphsCut | internal/service/markdown_chunker.go:78-78 | no paragraph has a separator left in it, and none but the last ends with a newline |
| Text.UnixExactly | internal/service/markdown_chunker.go:30-30 | every CRLF becomes a newline wherever it stands, and a text without one stays as it is |
| Text.Alphabet.TokensJoin | internal/service/markdown_chunker.go:112-130 | the token estimate is additive across newline joins |
| Text.Alphabet.TokensTrim | internal/service/markdown_chunker.go:112-130 | the estimate does not change by trimming |
| Chunker.ChunkingConserves | internal/service/markdown_chunker.go:23-59 | for every text and options the chunks hold exactly its visible characters in order, each has one, none exceeds the larger limit or the largest line, and no heading path is deeper than six |
| Chunker.SplitFaithful | internal/service/markdown_chunker.go:74-110 | splitting one section loses and repeats nothing and respects the bound |
| Splitting.SplitExactly | internal/service/markdown_chunker.go:74-110 | a section within the maximum stays whole; a longer one is cut, in order and without a gap, before a paragraph or a line of a long one exactly when the part has tokens and would go over the target with it |
| Chunker.EstimateTokens | internal/service/markdown_chunker.go:112-130 | the loop computes the estimate |
| Headings.HeadingExactly | internal/service/markdown_chunker.go:61-72 | a line is a heading of a level and title if and only if it is white space, that many of at most six hashes, a gap beginning with a space, the bare title, and white space |
| Headings.ChunkUnderHeading | internal/service/markdown_chunker.go:23-58 | every chunk is a part of one section that ends at the next heading or the end; its path holds for each depth the last heading at that depth with only deeper ones behind it, ends with the title of the heading the section starts with, and is empty before the first heading; limits not given are 550 and 800 |
| Headings.DepthIsLevel | internal/service/markdown_chunker.go:45-49 | where no heading skips a level, the depth of a heading is its level, so the path is the chain of its ancestors |
| Chunker.MarkdownHeading | internal/service/markdown_chunker.go:61-72 | the counting loop reads level and trimmed title as HeadingExactly characterises them |
| Chunker.SplitChunk | internal/service/markdown_chunker.go:74-110 | the nested packing loops produce exactly the parts that SplitFaithful is about |
| Chunker.ChunkMarkdown | internal/service/markdown_chunker.go:23-59 | the section loop produces those chunks, with conservation and bound in its own contract |
| LinePacking.PackingBounds | internal/service/ai_assistant.go:80-98 | no chunk is empty or exceeds the size and the longest line, and two neighbours total at least the size |
| LinePacking.PackingCount | internal/service/ai_assistant.go:80-98 | at most 2*len/size + 1 chunks |
| LinePacking.PackingConserves | internal/service/ai_assistant.go:80-98 | the chunks and a dropped blank rest hold every character but line breaks, in order |
| LinePacking.ChunksAreStretches | internal/service/ai_assistant.go:80-98 | every chunk is a stretch of consecutive lines joined by their line breaks, the stretches follow one another with only empty lines between them up to the last line, and the last is dropped exactly if it is blank |
| LinePacking.PackLines | internal/service/ai_assistant.go:80-98 | the loop produces exactly those chunks |
| LinePacking.ChunksFitSlots | internal/service/ai_assistant.go:37-64 | content that fits its MEDIUMTEXT column makes at most 27963 points, of 1000000 slots |
| LinePacking.PointIdsDistinct | internal/service/ai_assistant.go:64-64 | in 64-bit arithmetic, an id that does not wrap is a million times the article plus the chunk, and two of them are equal exactly for the same article and chunk |
| LinePacking.StoredPointsDistinct | internal/service/ai_assistant.go:62-65 | the points of stored articles have distinct ids for every article whose product fits in 64 bits |
| LinePacking.InjectiveExactly | internal/service/ai_assistant.go:64-64 | all slots of all articles from 1 up to one have distinct ids if and only if the product of that one fits in 64 bits |
| LinePacking.WrappedIdsCollide | internal/service/ai_assistant.go:64-64 | out of range, articles 2^58 apart share all ids |
| Lexical.TokensRebuildText | internal/service/markdown_chunker.go:158-187 | the first rune of each Han-led token and every other token whole spell the token characters of the text in order |
| Lexical.HanPairs | internal/service/markdown_chunker.go:162-176 | each Han letter outside a word gives a token, with the letter behind it if that is Han too, alone otherwise |
| Lexical.EstimateBoundsLowered | internal/service/markdown_chunker.go:112-187 | never more tokens of the lowered text than the estimate of the text as written, and as many if and only if no Han letter follows another word character in it |
| Lexical.EstimateBoundsTokens | internal/service/markdown_chunker.go:158-187 | the same for tokens and estimate of one and the same text |
| Lexical.EncodingCanonical | internal/service/markdown_chunker.go:137-156 | any two vectors meeting the specification of the same hashes are equal |
| Lexical.EncodingWeight | internal/service/markdown_chunker.go:148-154 | twice the sum of the values is the number of hashes plus distinct indices |
| Lexical.EncodedText | internal/service/markdown_chunker.go:138-156 | for the vector of a text, the indices are the hashes of the tokens of the lowered text; twice the sum is those tokens plus the indices, and at most the estimate of the text as written plus the indices |
| Lexical.ComputeTokens | internal/service/markdown_chunker.go:158-187 | the index loops compute the tokens |
| Lexical.EncodeLexical | internal/service/markdown_chunker.go:138-156 | for every order in which the map is iterated the vector is the one of the multiset of hashes, with strictly rising indices |
| RateLimit.ExpiryAfterCall | internal/platform/ratelimit.go:19-25 | after every call the key has an expiry: the one it had, or a window from now if it had none or was gone |
| RateLimit.OneLifetime | internal/platform/ratelimit.go:19-37 | within one life of the counter only what is left of the limit is admitted |
| RateLimit.WindowAdmits | internal/platform/ratelimit.go:19-37 | the first call on a counter that is gone begins a life of one window, in which exactly the first limit calls are admitted |
| RateLimit.LimiterBound | internal/platform/ratelimit.go:19-37 | over any run, a half-open interval as long as the window admits at most 2*limit - 1 calls |
| RateLimit.LimiterBoundTight | internal/platform/ratelimit.go:19-37 | for every limit and window of at least 2 ms some run reaches that number |
| RateLimit.LimitKeptExactly | internal/platform/ratelimit.go:19-37 | every run and interval keeps to the limit if and only if the limit is at most one |
| RateLimit.RateLimiter.Allow | internal/platform/ratelimit.go:31-37 | the script's commands give exactly the counter and the answer those lemmas are about, a failed script an error |
| RateLimit.RateLimiter.Handle | internal/platform/ratelimit.go:39-55 | a request is stopped exactly by a limiter that works and refuses it |
| Sessions.LiveTokensCovered | internal/repo/token.go:36-87 | on every run a live token is in its user's live session set, which expires no earlier and has no members but unrevoked tokens of the user |
| Sessions.ValidExactly | internal/repo/token.go:36-87 | on every run an issued token validates, for its user, exactly until its lifetime has passed, unless it was revoked or all tokens of its user were |
| Sessions.RevokeAllEndsSessions | internal/repo/token.go:75-87 | after RevokeAllForUser no earlier token of the user ever validates, whatever follows |
| Sessions.RotatedStaysInvalid | internal/repo/token.go:63-73 | a revoked token never validates again |
| Sessions.OthersKeepSessions | internal/repo/token.go:75-87 | other users' tokens validate as before |
| Sessions.TokenRepo.Issue | internal/repo/token.go:36-49 | token, set membership and set expiry as one transaction |
| Sessions.TokenRepo.Validate | internal/repo/token.go:51-61 | the user of a live token, none otherwise |
| Sessions.TokenRepo.Revoke | internal/repo/token.go:63-73 | succeeds exactly for a token that validates, and removes it from store and set |
| Sessions.TokenRepo.RevokeAllForUser | internal/repo/token.go:75-87 | removes every token of the live set, and the set |
| Comments.TwoLevels | internal/service/comment.go:29-68 | on every run a parent is absent or a parentless comment of the same article, namely the comment replied to or that one's parent, and each article counts exactly its undeleted comments |
| Comments.CommentHistory | internal/service/comment.go:29-189 | on every run a comment is there exactly if an acceptable call wrote it, with what the call said, and deleted exactly if its author or its article's author deleted it while the article was there |
| Comments.CommentService.Create | internal/service/comment.go:29-68 | accepted exactly with 1 to 2000 characters, on a published article, in reply to nothing or to one of its visible comments, the errors in the order of the code without any change; otherwise one comment under the flattened parent and the counter raised |
| Comments.CommentService.Delete | internal/service/comment.go:167-189 | exactly by the comment's or the article's author while both are there, forbidden exactly to others; one soft deletion and the counter lowered |
| CommentTree.EachCommentOnce | internal/service/comment.go:128-157 | from any list each comment comes out exactly as often as it went in, at any depth |
| CommentTree.TopLevelOrder | internal/service/comment.go:128-157 | roots first, then orphans, both in input order |
| CommentTree.RepliesOrder | internal/service/comment.go:140-145 | replies in input order under the root they name, nothing nested deeper |
| CommentTree.RepliesComplete | internal/service/comment.go:140-145 | with distinct root ids a root has exactly the comments that name it as parent |
| CommentTree.AssembleComments | internal/service/comment.go:128-157 | the two loops build exactly that tree |
| Tags.ResolvedSet | internal/service/article.go:73-117 | fails if and only if a requested id names no enabled tag; else, without duplicates, exactly the requested ids and the enabled tags among the names, missing names newly created and unused |
| Tags.TagsFollowRequests | internal/service/article.go:119-243 | an item has exactly the tags asked for by the last call that created or edited it, none once its author has deleted it, and no other call touches them |
| Tags.ItemsFollowCalls | internal/service/article.go:119-243 | items come only from their creation, keep their author, and are deleted only by the author |
| Tags.TogglesFlip | internal/repo/interaction.go:35-45 | a reaction changes exactly by its own toggle on a published item |
| Tags.TagsComeAndGo | internal/service/tag.go:38-63 | a tag goes exactly when it is deleted while no item has it, and is renamed only to a free name |
| Tags.DiffKeepsUsage | internal/service/article.go:209-233 | moving the counters of the difference while replacing an owner's rows keeps every usage count equal to its rows |
| Tags.UsageConserved | internal/repo/tag.go:56-93 | on every run of creations, edits, deletions and tag administration each usage count is the number of rows in the three tables, and no referenced tag is gone |
| Tags.ReactionsConserved | internal/repo/interaction.go:35-45 | on every run the like and favorite counters are the numbers of their rows |
| Tags.ToggleTwice | internal/service/article.go:339-421 | toggling twice restores rows and counters |
| TagService.Tables.ResolveTagSet | internal/service/article.go:73-117 | the two loops with their seen set compute that resolution, and create no tag when they fail |
| TagService.Tables.SetItemTags | internal/repo/article.go:76-89 | the unique index is violated exactly by a duplicate in the list; otherwise the owner's rows are exactly the list |
| TagService.Tables.Create | internal/service/article.go:119-165 | on success item, rows and counters together, on failure nothing |
| TagService.Tables.Update | internal/service/article.go:167-243 | refused exactly for others' items, items under review and unresolvable tags; otherwise the difference loops and the rows |
| TagService.Tables.ReplaceTags | internal/service/skill.go:153-175 | the two difference loops lower what was dropped, raise what was added, and replace the rows |
| TagService.Tables.Delete | internal/service/mcp_server.go:227-254 | releases every tag of the item and its rows |
| TagService.Tables.CountTagUsage | internal/repo/tag.go:79-93 | the three counts add up to the rows that reference the tag |
| TagService.Tables.AdminDelete | internal/service/tag.go:54-63 | deletes exactly a tag that nothing references |
| TagService.Tables.Toggle | internal/service/article.go:339-421 | insert or, on a duplicate, delete; returns whether the row is there and the new count, only for published items |

## Left out

- HTTP handlers, middleware, MCP schemas, JWT and password hashing, configuration, migrations and the frontend.
- The inside of GORM, go-redis, amqp091-go and singleflight, connection loops, tickers and logging.
- Full-text search, hot sorting and the paging queries of MySQL; the collation of tag names, which are compared exactly.
- The document-index queue and the Qdrant, embedding, rerank and chat calls.
- The validation of titles, names, repository URLs and installations, the pinned and hidden flags, and admin review.
- Admin broadcasts, best-effort creation outside interactions, and the read flags of notifications.
- Database errors in the middle of a counter transaction: they roll it back. Skills and MCP servers create tags outside their transaction, so a later error can leave an unused tag behind.
- Finer interleavings of `Update` and `Save`, and of `RevokeAllForUser` between its read and its delete.
- Comment likes, resource comments and comment hiding; the trimming of error texts; MySQL's rounding of times.
- Float rounding: scores are integers and vector values exact reals, as they are in float32 up to 2^24; 64-bit overflow of the counters.
- Invalid UTF-8: the token chunker and the encoder work on runes, the line packer and the comment length on one character per byte.
- OverlapTokens, which the chunker never reads; fenced code, which it does not treat specially.
- The FNV-1a hash is any function; that different tokens get different indices is not claimed.
- The boards of skills and MCP servers, which are read without singleflight.
- RankingMetrics.Metrics.P95: the buckets are loaded one by one; what the scan finds in them is given here as one sequence of durations.
- TagService.Tables.Update: title, content and publication time are not part of an item here, only author, status, tags and counters.
- RateLimit.RateLimiter.Allow: a script whose reply is lost after it ran counts as not run.
- Outbox.Worker.RunOne: a worker alone, with one clock reading for claim and mark; other workers, other clocks and lost leases are in OutboxRuns and the pipeline machine.
- Outbox.Worker.RunBatch: the same, so an error of a mark in mid-batch does not occur.
- RankingList.Ranking.ListArticles: one call at a time on one reading of the clock; interleaved rebuilds are in RankingCache.
- Consumer.Connection.Consume: the retry queues are not emptied into the main queue here; that is a step of the pipeline machine.
