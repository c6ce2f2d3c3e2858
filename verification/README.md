# GCFeed backend: a verified model

This project models the state-keeping backend of GCFeed, a short-video feed
server, in Dafny 4.11, and proves what its protocols promise. Redis hashes and
sorted sets are finite maps and descending sequences, MySQL rows are maps,
RabbitMQ queues are sequences of copies with a retry count, times are
nanoseconds as integers, interest vectors are sequences of reals.

Run `dafny verify dfyconfig.toml` to check everything.

## What is modelled

| files | part of the system |
|---|---|
| Base, Decimal, Ranking | options and the clamp; decimal strings; finite sets under a strict total order: the k greatest, listings, cursor walks, the in-place sort |
| InteractionDomain, ActionStore, WatchProtocol, InteractionRepo, InteractionService, ActionPipeline | likes, favourites and comments: the Redis state under WATCH with its sharded counters, the database transactions, the services, the worker, and the whole pipeline as one state machine |
| RelationRepo, RelationService | follow rows and counters; follow and un-follow with their effect on the follower's inbox |
| FeedDomain, FeedRepo, FollowingIndex, FollowingStrategy, Fanout, FollowingFeed | the following feed: bounded inboxes and outboxes, the merged page, the plain query it refines, the fan-out loop, and all of it as one state machine |
| Delivery, ViewEvents | retries, dead letters and topology; deduplicated view events under concurrent handlers and crashes |
| RealtimeHub | the registry of SSE connections, one step per critical section |
| Recommendation, Interest, HotRank | recommendation pages and author interleaving; the interest vector kept incrementally; the hot window over minute buckets |

Where the source changes fields, the model has a class with those fields, whose
methods are proved equal to functions on values; state machines and lemmas use
the same functions, so a claim about a run is a claim about what the methods do.
Where several processes interleave, a state machine takes one step per atomic
action (one Redis transaction, one critical section, one delivery, one page of
followers), and its main results quantify over all runs.

## Conditions of the main results

- Pipeline (`ActionPipeline`): one FIFO consumer; handlers and publishing do not
  fail; no commit on an action whose previous event is still unpublished; a change
  of an action does not carry the non-empty idempotency key of the change before
  it; the video stays published; no expiry; no action rows at the start. The key
  condition is exact: a run converges throughout if and only if it keeps it
  (`ConvergesExactly`), and `ReusedKeyDiverges` is a run that breaks it and ends
  with the stores apart. Clients who never bring a key back on an action after
  another one keep it (`NoKeyBackSuffices`).
- Following feed (`FollowingFeed`): one consumer of the fan-out queue, whose pages
  (not whole handlers) are atomic and may be redelivered at any point; no two
  requests for one edge in flight; nobody at the big-creator threshold; at most
  100 videos per author when a backfill runs; no inbox grows past its bound; no
  video is deleted. An un-follow must not repeat the key of the follow it cancels:
  the service clears the inbox although the repository takes the request for a
  retry. `UnfollowKeepsExactIff` says exactly when that matters, and
  `RepeatedKeyDropsVideo` is a run in which it does.
- Index pages: whole-second publish times, ids below 1,000,000, one member per
  video (`PlainItems`). Which of two equal scores comes first is any strict total
  order of members.
- Retry bound (`Delivery`): republishing and acknowledging succeed and deliveries
  carry a routing key. `ProgressIff` says exactly which deliveries make progress,
  `StayingRunsForever` what the others can do. Nothing is lost in either case.
- View events (`ViewEvents`): the dedup store answers and its keys do not expire.
  At-most-once needs nothing about crashes; never-lost excludes crashes between
  claim and success or release: after such a crash no continuation applies the
  event, after any other some continuation does (`CrashIsSafeIff`).
- SSE (`RealtimeHub`): OnEvent calls come one after the other, as from the one
  subscription goroutine. A client that was removed but not yet closed is still
  open and misses what comes after its removal (`RemovedClientMisses`); `GapFree`
  says exactly what every client gets and when that is everything.
- Recommendation pages (`UsablePool`): a fixed pool, clock and limit, distinct
  video ids, unequal scores at least 1e-9 apart; `FilterIsExactUpToGap` is the exact
  effect of the gap.
- Author interleaving may show a candidate behind a lower-ranked one of the same
  author (`SecondShownLast`); `AuthorKeepsOrderIff` says exactly when it does not.
- Interest vectors: watch times are not negative (checked when a view is recorded),
  later views are not among those already aggregated (`CountedTwiceIff` is the exact
  effect), and at most 200 positive views are aggregated.
- Hot window: no bucket has expired and video ids fit in a signed 64-bit integer.

## Where code and comments disagree

The model follows the code.

- The comment on `retryOrDeadLetter` speaks of republishing one message up to a
  limit; for `video.published` each republish reaches both bound queues, so the
  number of runs is exponential in the limit (`BoundIsReached`).
- The comment on `RemoveInboxAuthor` says it runs after an un-follow; it also runs
  for a replayed key that left the follow active.
- The comment on the dedup cache says that a failed handling gives its claim back;
  a crash in between does not (`StrandedKeyLosesEvent`).
- A delivery without a routing key, or one whose republish fails, is requeued with
  its retry count unchanged, so the limit on retries does not apply to it.

## Model

| member | source | states |
|---|---|---|
| ActionPipeline.Convergence | backend/internal/application/interaction/action.go:55-92 | in every reachable state of the pipeline, replaying an action's queued events and then its unpublished one onto its row gives "active" exactly when its Redis state is active, even if the head was handled several times before its ack |
| ActionPipeline.AgreeWhenQuiet | backend/internal/application/interaction/worker.go:61-89 | with nothing queued or unpublished the two stores agree on every action, and the raw Redis count, the database count and the number of active users are one number |
| ActionPipeline.ConvergesExactly | backend/internal/infra/persistence/interaction/gorm.go:138-160 | every state of a run converges on every action if and only if no change of an action carries the non-empty key of the change before it |
| ActionPipeline.ConvergesIff | backend/internal/infra/cache/action_state_cache.go:44-55 | a change committed in any state of the invariant, pending events included, keeps its action converging if and only if its key is empty or not that of the action's last change |
| ActionPipeline.NoKeyBackSuffices | backend/internal/domain/interaction/entity.go:94-108 | a run whose requests carry no key, the key Redis holds, or one new to their action keeps that condition |
| ActionPipeline.LastKeyAfter | backend/internal/application/interaction/worker.go:61-77 | the last change's key is that of the last request that changed the action, whatever is published, applied, redelivered or reconciled |
| ActionPipeline.ExactDrift | backend/internal/infra/cache/feed_stat_cache.go:61-78 | in every reachable state the raw Redis count is the count read at the video's last reconcile (0 before the first) plus all deltas issued since; it misses exactly the deltas of the pending events issued before that reconcile and not reflected in it; the reader's clamp at 0 never enlarges the gap |
| ActionPipeline.ReusedKeyDiverges | backend/internal/infra/persistence/interaction/gorm.go:138-147 | a complete run of the machine without the condition: like "a", like "b", un-like "a", every event published, applied, reconciled and acknowledged; it ends at rest with Redis cancelled and the row active |
| ActionPipeline.RequestIsSetActionAsync | backend/internal/application/interaction/action.go:55-92 | the machine's arrive, read and commit steps of an undisturbed request are the service's asynchronous path |
| ActionPipeline.StepsAreTheWorker | backend/internal/application/interaction/worker.go:61-89 | the machine's apply, read and reconcile steps are the worker's handler |
| ActionPipeline.InvStep | backend/internal/application/interaction/worker.go:61-77 | every step of the machine that keeps the key condition keeps the whole invariant: chain and keys of the pending events, lag, drift and baseline equations |
| WatchProtocol.Serialisable | backend/internal/infra/cache/action_state_cache.go:38-86 | under every interleaving of concurrent calls Redis ends in the state of the committed calls run one by one in commit order; the committed deltas of an action sum to 1 if it is active and 0 otherwise; the shards hold the active users |
| WatchProtocol.WatchesStayValid | backend/internal/infra/cache/action_state_cache.go:38-86 | an aborted transaction changes nothing; a committed one has the effect of the call run alone at that moment |
| WatchProtocol.ShardsCountActiveUsers | backend/internal/infra/cache/action_state_cache.go:59-75 | after any committed calls the sixteen shards sum to the number of active users on top of the base |
| ActionStore.Decide | backend/internal/infra/cache/action_state_cache.go:44-55 | a replayed key changes nothing, any other request takes effect; the delta is the change of activity |
| ActionStore.RawCountAfterWrite | backend/internal/infra/cache/action_state_cache.go:59-75 | a committed call moves the raw count of its own video and type by its delta and no other raw count |
| ActionStore.RawCountAfterReconcile | backend/internal/infra/cache/feed_stat_cache.go:61-78 | a reconcile makes the raw count of its video the database count and leaves all others alone |
| ActionStore.ShownIsRawCount | backend/internal/infra/cache/feed_stat_cache.go:150-179 | readers are shown the raw counts clamped, with the caller's fallback where there is no base; nothing exactly when there is neither base nor fallback nor shard |
| ActionStore.NeighboursAreSpread | backend/internal/infra/cache/cache_keys.go:144-149 | sixteen users in a row use sixteen different shards |
| ActionStore.ActionStatStore.SetActionState | backend/internal/infra/cache/action_state_cache.go:21-99 | the new hash, base and shard, and the clamped counts it answers with |
| ActionStore.ActionStatStore.ActionStat | backend/internal/infra/cache/feed_stat_cache.go:150-179 | the base or fallback plus the deltas of all sixteen shards, clamped; nothing when Redis holds nothing |
| ActionStore.ActionStatStore.ReconcileActionStat | backend/internal/infra/cache/feed_stat_cache.go:61-78 | the base takes the database counters and the sixteen shards are deleted; no effect without a statistic |
| InteractionDomain.ResolveActionDelta | backend/internal/domain/interaction/entity.go:94-108 | the delta is the change of the active bit exactly for the statuses the system writes, or when the target is active |
| InteractionDomain.ActiveKeysAfterWrite | backend/internal/domain/interaction/entity.go:83-108 | writing one record moves the number of active users of its counter by the change of the active bit, and no other |
| InteractionRepo.SameTransition | backend/internal/infra/persistence/interaction/gorm.go:109-160 | the database path and the Redis path leave the same record and the same delta for the same request |
| InteractionRepo.SetActionIdempotent | backend/internal/infra/persistence/interaction/gorm.go:124-160 | a request applied twice in a row is applied once; the second application never moves a counter |
| InteractionRepo.CountersAreCardinalities | backend/internal/infra/persistence/interaction/gorm.go:99-180 | after any run like, favourite and comment counts are the numbers of active users and undeleted comments, and a key names at most one comment |
| InteractionRepo.SetActionKeepsInv | backend/internal/infra/persistence/interaction/gorm.go:403-439 | SetAction keeps every counter exact; the clamp at 0 has nothing to cut |
| InteractionRepo.PublishedVideosTakeActions | backend/internal/infra/persistence/interaction/gorm.go:99-116 | a new video takes actions and comments at once, from counts of zero; a hidden one refuses both and nothing changes |
| InteractionRepo.CreateCommentKeepsCounters | backend/internal/infra/persistence/interaction/gorm.go:188-234 | a new comment moves the comment count by one, a replayed key by nothing |
| InteractionRepo.NewCommentIsLive | backend/internal/infra/persistence/interaction/gorm.go:188-234 | a comment with a new key, or none, on a published video is created under a new id, live, found by its key, and counted in the answer |
| InteractionRepo.KeyFindsItsComment | backend/internal/infra/persistence/interaction/gorm.go:188-234 | creating again with a comment's key answers with that comment and changes nothing |
| InteractionRepo.DeleteCommentKeepsInv | backend/internal/infra/persistence/interaction/gorm.go:315-377 | a delete moves the comment count by minus one once; repeated or refused deletes move nothing |
| InteractionRepo.DeleteTakesEffectIff | backend/internal/infra/persistence/interaction/gorm.go:315-377 | a delete is allowed exactly to the comment's owner, the video's author and administrators; it takes that comment out of the live ones and nothing else |
| InteractionRepo.Repository.SetAction | backend/internal/infra/persistence/interaction/gorm.go:99-180 | the new rows and counters and the answer, or video not found |
| InteractionRepo.Repository.CreateComment | backend/internal/infra/persistence/interaction/gorm.go:188-234 | the new comment and counter, or the comment the key already names |
| InteractionRepo.Repository.DeleteComment | backend/internal/infra/persistence/interaction/gorm.go:315-377 | the soft delete with its counter, or the error of a missing comment, right or video |
| InteractionService.HotScoreConservation | backend/internal/application/interaction/action.go:94-141 | over any run of synchronous operations the scores recorded for a video sum to the hot score of its current counts, replays and repeated deletes included |
| InteractionService.AsyncHotScoreConservation | backend/internal/application/interaction/action.go:55-92 | over any run of asynchronous requests from no actions, publishing working, un-likes and replays included, the scores recorded for a video sum to the weights of the likes and favourites Redis holds as active |
| InteractionService.AsyncHotMoves | backend/internal/application/interaction/action.go:69-74 | a request moves the recorded score of every video as it moves the active likes and favourites of the store that decided: Redis, or after the fallback the database |
| InteractionService.AsyncTakesEffect | backend/internal/application/interaction/action.go:64-74 | the store that decided shows what was asked for, unless the request repeats the key it holds |
| InteractionService.ConservedAfter | backend/internal/domain/feed/entity.go:134-136 | a recorded delta that equals the change of the hot score of one video keeps the conservation for all |
| InteractionService.Service.SetAction | backend/internal/application/interaction/action.go:33-53 | argument errors change nothing; otherwise the effect of the path that is configured, and the activity and count of the store that decided |
| InteractionService.Service.SetActionAsync | backend/internal/application/interaction/action.go:55-92 | Redis first, then event and hot score if something changed, the synchronous path when publishing fails; the answer shows the Redis state, after the fallback the row |
| InteractionService.Service.SetActionSync | backend/internal/application/interaction/action.go:94-118 | rows, counter and recorded hot score; the answer is the row's activity and the new count |
| InteractionService.Service.CreateComment | backend/internal/application/interaction/comment.go:12-48 | the comment a key already names, else validation, write and hot score; the answer or error of every case |
| InteractionService.Service.DeleteComment | backend/internal/application/interaction/comment.go:89-113 | validation, write, hot score; the repository's error as the service reports it, else the comment is deleted and the answer is its video's comment count |
| InteractionService.ActionWorker.HandleActionChanged | backend/internal/application/interaction/worker.go:61-89 | the row transaction and, if it succeeded, the reconcile with the counters just committed |
| RelationRepo.CountersAreCardinalities | backend/internal/infra/persistence/relation/gorm.go:41-128 | after any run of follows and un-follows both counters of every user are numbers of active edges, and total following equals total followers |
| RelationRepo.SetFollowKeepsInv | backend/internal/infra/persistence/relation/gorm.go:47-122 | one write keeps every counter exact and the two totals equal |
| RelationRepo.FollowTakesEffect | backend/internal/infra/persistence/relation/gorm.go:60-98 | whatever row it finds, the edge is active afterwards if and only if that was asked for, or, when the request repeats the row's key, if it was before; the row remembers the key, no other row moves, and an unknown user changes nothing |
| RelationRepo.DeltaFits | backend/internal/infra/persistence/relation/gorm.go:234-245 | the clamp at 0 never fires |
| RelationRepo.ResolveFollowDelta | backend/internal/domain/relation/entity.go:147-161 | the delta is the change of the active bit exactly for the statuses the system writes, or when the target is active |
| RelationRepo.Repository.SetFollow | backend/internal/infra/persistence/relation/gorm.go:41-128 | the new row and counters and the answer, or user not found |
| FollowingFeed.IndexRefinesQuery | backend/internal/application/video/fanout_worker.go:130-177 | over any run of saves, publishes, fan-out pages, redeliveries, follows and un-follows: an inbox misses a followed video only while its fan-out or a backfill of its author is pending, holds an unfollowed author's video only while a clean-up is pending, and with nothing pending equals what the plain query ranges over |
| FollowingFeed.StepKeepsInv | backend/internal/application/relation/service.go:142-173 | every step keeps: entries are rightful, and every followed video is in the inbox or on its way |
| FollowingFeed.PageReaches | backend/internal/application/video/fanout_worker.go:159-175 | a follower a page did not list lies behind its last id, and then the page was full |
| FollowingFeed.UnfollowKeepsExactIff | backend/internal/application/relation/service.go:155-162 | an un-follow leaves an exact inbox exact if and only if it does not repeat the key of the active follow, or the author has no video |
| FollowingFeed.RepeatedKeyDropsVideo | backend/internal/application/relation/service.go:155-162 | a run without the discipline: the un-follow repeats the key of the follow, the edge stays active, and with nothing pending the followed video is gone from the inbox |
| FollowingFeed.QuietIndexIsFaithful | backend/internal/application/feed/strategy_following.go:82-101 | with nothing pending and no author at the threshold, whatever the index answers is what the plain query ranges over |
| FollowingFeed.SomeRun | backend/internal/application/video/fanout_worker.go:130-177 | the machine does move: a run in which a user follows an author and the author's next video reaches the inbox, ending with nothing pending |
| FollowingFeed.WriteMovesOneEdge | backend/internal/infra/persistence/relation/gorm.go:41-128 | a relation write moves no edge but its own, and its answer says whether that one is active |
| RelationService.Service.SetFollow | backend/internal/application/relation/service.go:142-173 | validation errors change nothing; a follow that took effect backfills, an un-follow clears, an error touches no inbox |
| RelationService.Service.BackfillFollowFeed | backend/internal/application/relation/service.go:217-242 | the follower's inbox becomes the greatest 1000 of itself and the author's 100 most recent videos; nothing for a big creator |
| RelationService.BackfilledMore | backend/internal/application/relation/service.go:233-240 | adding the recent videos one by one with trimming is adding them all at once |
| Fanout.PageOfFollowers | backend/internal/infra/persistence/feed/gorm.go:176-191 | a page of follower ids holds exactly the followers up to its last id; a short page is the last one |
| Fanout.FanoutWorker.HandleVideoPublished | backend/internal/application/video/fanout_worker.go:130-177 | every follower's inbox gets the video, nobody else's changes; a big creator's outbox instead; invalid events change nothing |
| Fanout.FanoutWorker.FanOut | backend/internal/application/video/fanout_worker.go:160-176 | the page loop ends and delivers to exactly the followers, whatever the batch size |
| FollowingIndex.BoundedInboxIsTop | backend/internal/infra/cache/following_index_cache.go:28-42 | after any sequence of adds the key lists exactly the maxLen greatest (score, member) pairs ever added |
| FollowingIndex.OrderOfAddsIsIrrelevant | backend/internal/infra/cache/following_index_cache.go:28-42 | two sequences of adds with the same elements, redeliveries included, leave the same key |
| FollowingIndex.RedisOrderIsTimeline | backend/internal/infra/cache/following_index_cache.go:177-183 | for whole-second times and ids below 1,000,000 the score order is the timeline order and a score bound is a cursor |
| FollowingIndex.FetchLosesNothing | backend/internal/infra/cache/following_index_cache.go:105-114 | fetching only the top `limit` members per key loses nothing of the merged page |
| FollowingIndex.KeysHold | backend/internal/infra/cache/following_index_cache.go:92-97 | the keys read hold the inbox and the outbox of every author to pull from, and nothing else |
| FollowingIndex.CollectKeeps | backend/internal/infra/cache/following_index_cache.go:143-169 | the merge shows each video once, followed authors only, and drops nothing else |
| FollowingIndex.CollectsFirsts | backend/internal/infra/cache/following_index_cache.go:145-169 | exactly the first member of each video by a followed or unknown author is kept |
| FollowingIndex.FollowingIndexCache.AddInboxItems | backend/internal/infra/cache/following_index_cache.go:21-42 | exactly the users given have the item added and trimmed; an unacceptable item changes nothing |
| FollowingIndex.FollowingIndexCache.AddAuthorOutboxItem | backend/internal/infra/cache/following_index_cache.go:45-61 | exactly the author's outbox has the item added and trimmed |
| FollowingIndex.FollowingIndexCache.RemoveInboxAuthor | backend/internal/infra/cache/following_index_cache.go:64-85 | exactly the author's members leave that user's inbox |
| FollowingIndex.FollowingIndexCache.ListFollowingIndexPage | backend/internal/infra/cache/following_index_cache.go:88-175 | complete if and only if the inbox holds something, or some outbox does and every followed author is pulled; page sorted, distinct, followed authors only; on a clean index exactly the first `limit` items below the cursor |
| FollowingStrategy.Strategy.ListFollowingItems | backend/internal/application/feed/strategy_following.go:82-101 | the first `limit` items below the cursor of a usable clean index, whatever it holds, and of the plain query when the index is missing, unusable or faithful |
| FollowingStrategy.Strategy.FromIndexIff | backend/internal/application/feed/strategy_following.go:82-100 | the index is read exactly when the inbox holds something, or an outbox does and only big creators are followed |
| FollowingStrategy.Strategy.ListPage | backend/internal/application/feed/strategy_following.go:54-80 | a page of the index or the plain query with exact HasMore and the cursor of its last item; the plain query's page when the inbox is empty although an author below the threshold is followed, and through a faithful index |
| FollowingStrategy.PageWalkShowsAll | backend/internal/application/feed/strategy_following.go:54-80 | following NextCursor over a fixed source of plain items, index or query, shows each of its items once in timeline order |
| FeedDomain.TimelineWalkShowsAll | backend/internal/application/feed/strategy_following.go:54-80 | following NextCursor shows every item exactly once in timeline order |
| FeedDomain.OneMoreTells | backend/internal/application/feed/strategy_following.go:55-63 | fetching limit+1 items tells exactly whether more follow |
| FeedDomain.SortPageItemsByTimeline | backend/internal/domain/feed/entity.go:170-177 | the array becomes the sorted form of itself |
| FeedRepo.FollowerCountIsCardinality | backend/internal/infra/persistence/feed/gorm.go:162-174 | the count the threshold tests is the number of followers |
| FeedRepo.PulledIffBig | backend/internal/infra/persistence/feed/gorm.go:136-174 | the authors whose outboxes are pulled are exactly the followed ones at or above the threshold at which the fan-out writes outboxes |
| FeedRepo.FeedRepository.ListFollowingPage | backend/internal/infra/persistence/feed/gorm.go:107-134 | the reference: the first `limit` published videos of followed authors below the cursor |
| FeedRepo.FeedRepository.ListFollowerIDs | backend/internal/infra/persistence/feed/gorm.go:176-191 | the `limit` smallest follower ids after the cursor |
| FeedRepo.FeedRepository.ListAuthorRecentVideos | backend/internal/infra/persistence/feed/gorm.go:194-213 | the author's `limit` latest videos, none for invalid arguments |
| Ranking.TopUnion | backend/internal/infra/cache/following_index_cache.go:36-39 | trimming early loses nothing: the k greatest of a union can be taken from the k greatest of a part |
| Ranking.WalkVisitsAll | backend/internal/application/feed/strategy_following.go:54-80 | pages that follow each other's last element list everything below the first cursor once, in order |
| Delivery.RetriesAreBounded | backend/internal/infra/mq/consumer.go:78-122 | when republishing and acknowledging succeed, any outcomes end: one publish to n bound queues causes at most 1+n+...+n^maxRetries handler runs per queue and n times that many deliveries |
| Delivery.BoundInClosedForm | backend/internal/infra/mq/consumer.go:78-122 | 2^(maxRetries+1)-1 runs per queue for two queues on one routing key, maxRetries+1 for one |
| Delivery.BoundIsReached | backend/internal/infra/mq/consumer.go:78-122 | the bound is exact: if every run fails and nothing waits any more, each queue has seen exactly that many runs |
| Delivery.DeliverySpends | backend/internal/infra/mq/consumer.go:78-98 | the potential: runs so far plus runs still possible never grows, and is constant while handlers fail |
| Delivery.NothingLost | backend/internal/infra/mq/consumer.go:51-98 | for every bound queue, whatever fails: a copy waits there, or lies in its dead letters, or an earlier delivery from that queue was handled successfully and acknowledged |
| Delivery.FateOfDelivery | backend/internal/infra/mq/consumer.go:51-98 | a copy that leaves was handled if and only if the handler succeeded, is dead-lettered if and only if its body does not decode or its last retry failed, and retried otherwise |
| Delivery.EveryCopySettles | backend/internal/infra/mq/consumer.go:51-98 | a copy that once waited waits still or has been acknowledged or dead-lettered, also when republishes fail and acknowledgements get lost |
| Delivery.RetriesKeepContent | backend/internal/infra/mq/consumer.go:101-122 | retries keep id, body, exchange and routing key and stay within the bound queues |
| Delivery.ProgressIff | backend/internal/infra/mq/consumer.go:51-98 | a delivery makes progress if and only if its acknowledgement or rejection reaches the broker and, after a failure, its retries are used up or it is republished |
| Delivery.StayingRunsForever | backend/internal/infra/mq/consumer.go:85-97 | without a routing key, or while republishes fail or acknowledgements get lost, one copy can run any number of times |
| Delivery.RetryCount | backend/internal/infra/mq/consumer.go:132-152 | only positive numbers count; floats truncate; anything else is 0 |
| Delivery.SharedRoutingKey | backend/internal/infra/mq/topology.go:10-32 | video.published feeds exactly two queues, the other routing keys exactly one |
| Delivery.RabbitMQ.EnsureTopology | backend/internal/infra/mq/topology.go:10-32 | exactly the four bindings are declared |
| Delivery.RabbitMQ.HandleDelivery | backend/internal/infra/mq/consumer.go:51-72 | one turn of the consume loop: settled, retried or requeued, or left to be delivered again when the acknowledgement is lost |
| Delivery.RabbitMQ.RetryOrDeadLetter | backend/internal/infra/mq/consumer.go:78-98 | dead-lettered when used up, requeued without routing key or republish, else republished to all bound queues and acknowledged |
| Delivery.RabbitMQ.Drain | backend/internal/infra/mq/consumer.go:51-98 | consuming ends for every pattern of failures and every order of delivery, and then every copy is settled |
| ViewEvents.AppliedAtMostOnce | backend/internal/application/exposure/worker.go:75-105 | under concurrent handlers, duplicate publishes, retries and crashes at any stage, the events of one key are applied at most once |
| ViewEvents.NeverLost | backend/internal/application/exposure/worker.go:96-104 | while a published record has not been applied, a copy is queued, being handled or dead-lettered, if no handler that owns the key crashes |
| ViewEvents.CrashIsSafeIff | backend/internal/application/exposure/worker.go:85-104 | after the crash of a handler some continuation ends with its event applied if and only if the handler did not own its key; such a crash loses nothing |
| ViewEvents.StrandedForever | backend/internal/infra/cache/event_dedup_cache.go:36-50 | a key claimed by nobody who could still release it or use it up stays so: no continuation applies its event |
| ViewEvents.StrandedKeyLosesEvent | backend/internal/infra/cache/event_dedup_cache.go:36-50 | a concrete run: claim, crash, redelivery taken for a duplicate; the event is gone |
| ViewEvents.TwiceAppliedIff | backend/internal/application/exposure/worker.go:109-117 | handling an event twice applies it twice if and only if it has neither record id nor event id |
| ViewEvents.KeyIdentifies | backend/internal/application/exposure/worker.go:109-117 | two events share a dedup key exactly when they carry the same record, or none and the same event id |
| ViewEvents.HandlerIsItsSteps | backend/internal/application/exposure/worker.go:75-105 | the machine's claim, apply and release steps of one handler are the handler |
| ViewEvents.OnlyTakenKeysAreSkipped | backend/internal/application/exposure/worker.go:85-104 | only a dedup store that answers that the key is taken keeps an event from the updater; without a store or an answer it is handed over |
| ViewEvents.RetryAppliesIff | backend/internal/application/exposure/worker.go:97-104 | after a failed update a redelivery applies the event if and only if its key was not claimed or could be given back |
| ViewEvents.FinishIsDelivery | backend/internal/infra/mq/consumer.go:61-98 | the end of a handler is the delivery of its copy: dead-lettered, requeued or republished with its count raised as the consumer does it |
| ViewEvents.ViewEventWorker.HandleViewEventRecorded | backend/internal/application/exposure/worker.go:75-105 | keys, applied events and answer for every combination of failing calls; an unreachable dedup store does not stop the event |
| ViewEvents.EventDedupCache.Claim | backend/internal/infra/cache/event_dedup_cache.go:36-50 | true exactly for a key not held before, which is then held; no key always claims; an error changes nothing |
| ViewEvents.EventDedupCache.Release | backend/internal/infra/cache/event_dedup_cache.go:53-58 | the key is free again |
| RealtimeHub.GapFree | backend/internal/infra/realtime/hub.go:156-177 | what a client received plus its buffer is exactly its user's events snapshotted after its registration and before its removal, but for the one the running dispatch still owes it or the last one when that found it full or closed; so it has everything if and only if no event of its user came after its removal |
| RealtimeHub.RemovedClientMisses | backend/internal/infra/realtime/hub.go:108-129 | a run in which a removed client that is still open misses its user's next event |
| RealtimeHub.ReadTakesOldest | backend/internal/infra/realtime/hub.go:44-56 | a reader takes the buffered events in the order they were sent and touches nobody else's |
| RealtimeHub.StepsAreDeliver | backend/internal/infra/realtime/hub.go:169-176 | the machine's steps on one target are the hub's delivery to it: sent, or removed, closed and counted once |
| RealtimeHub.RegistryIsSound | backend/internal/infra/realtime/hub.go:71-153 | every registered client is open, no user has more than five, and gauge plus owed adjustments is the number of registered clients |
| RealtimeHub.EvictionTakesOldest | backend/internal/infra/realtime/hub.go:85-95 | a new connection pushes out the smallest ids only and as few as make room |
| RealtimeHub.StepKeepsClient | backend/internal/infra/realtime/hub.go:71-177 | every critical section keeps every client's flow, close and membership invariants |
| RealtimeHub.RegisterKeepsGauge | backend/internal/infra/realtime/hub.go:99-104 | the owed adjustments of a registration match the arrivals and evictions |
| RealtimeHub.Hub.Register | backend/internal/infra/realtime/hub.go:71-106 | the eviction loop and the new client: registry, channels and gauge |
| RealtimeHub.Hub.Unregister | backend/internal/infra/realtime/hub.go:108-129 | removed, closed, and counted only if it was registered |
| RealtimeHub.Hub.Close | backend/internal/infra/realtime/hub.go:132-153 | registry emptied, exactly the registered channels closed, gauge moved by their number |
| RealtimeHub.Hub.TrySend | backend/internal/infra/realtime/hub.go:44-56 | sent, full or closed |
| RealtimeHub.Hub.OnEvent | backend/internal/infra/realtime/hub.go:156-177 | every registered client of the user has the event behind what it had, or was full and is closed and gone; no other client and no other user changes |
| Recommendation.PagesPartitionRanking | backend/internal/application/recommendation/service.go:90-136 | for a pool with distinct ids and unequal scores at least 1e-9 apart: sending each answer's NextCursor with the next request until HasMore is false shows every candidate of the pool exactly once, and no page shows one ranked above a candidate of an earlier page |
| Recommendation.AnswerIsPage | backend/internal/application/recommendation/service.go:111-125 | one answer through the filter and the cut is the ranking's page below the candidate its cursor came from, and its NextCursor is again that of a ranked candidate |
| Recommendation.FilterIsExactUpToGap | backend/internal/application/recommendation/service.go:348-368 | the filter never drops a candidate ranked after the cursor, and passes one ranked before it exactly when its score is greater by less than 1e-9 and time and id are past the cursor's |
| Recommendation.CursorContinues | backend/internal/application/recommendation/service.go:348-368 | with unequal scores 1e-9 apart the cursor of a candidate leaves exactly what is ranked below it |
| Recommendation.Recommend | backend/internal/application/recommendation/service.go:90-136 | the answer to the request (`AnswerTo`), or the error of an invalid cursor or user |
| Recommendation.AnswerShowsPage | backend/internal/application/recommendation/service.go:107-135 | an answer shows what passes the cursor's filter cut to the limit, in the interleaved order, with exact HasMore and the cursor of the last one in rank order; below a ranked candidate of a usable pool that is the ranking's page |
| Recommendation.ScoredIsPool | backend/internal/application/recommendation/service.go:107-110 | what is ranked is exactly the pool's candidates that are not nil, each with its score |
| Recommendation.InterleaveByAuthor | backend/internal/application/recommendation/service.go:310-346 | ends; the candidates that are not nil in the order of `InterleavedOrder`, up to two as they are |
| Recommendation.OrderIsInOrder | backend/internal/application/recommendation/service.go:310-346 | that order is a permutation with the first one first and a part without equal neighbours, then a tail all by the author before it; candidates without equal neighbours keep their order |
| Recommendation.ShownAtPosition | backend/internal/application/recommendation/service.go:317-345 | every candidate is shown at its own position: the first of each run of one author behind the firsts of the runs before it, all others behind those |
| Recommendation.AuthorKeepsOrderIff | backend/internal/application/recommendation/service.go:321-343 | the candidates of an author are shown in rank order if and only if every run of that author but the last is one candidate long |
| Recommendation.SecondShownLast | backend/internal/application/recommendation/service.go:321-343 | in general they are not: of four candidates by authors 1, 1, 2, 1 the second is shown last |
| Recommendation.FirstPass | backend/internal/application/recommendation/service.go:314-327 | places, in order, every candidate whose author differs from the one before it, puts off, in order, the others; nothing lost, no equal neighbours, the first candidate first |
| Recommendation.PlaceDelayed | backend/internal/application/recommendation/service.go:329-344 | one turn does the same behind what is placed, and shortens the rest when it progressed |
| Recommendation.TurnFacts | backend/internal/application/recommendation/service.go:329-344 | a turn places or keeps everything, places no equal neighbours, and leaves one author when it places nothing |
| Recommendation.CandidatePoolLimit | backend/internal/application/recommendation/service.go:285-294 | eight pages, between 50 and 500, and always more than one page |
| Recommendation.FilterByCursor | backend/internal/application/recommendation/service.go:348-364 | the loop keeps exactly the passing candidates in order |
| Interest.IncrementalEqualsBatch | backend/internal/infra/cache/user_interest_cache.go:79-127 | Store of the aggregate of a non-empty list, then Apply of each later view, makes Load return the aggregate of all |
| Interest.ArrivalOrderIsIrrelevant | backend/internal/infra/cache/user_interest_cache.go:94-127 | the order of the later views does not matter |
| Interest.CoordinatesStayBetween | backend/internal/infra/persistence/recommendation/gorm.go:160-196 | each coordinate lies between the least and greatest of the contributing vectors |
| Interest.CountedTwiceIff | backend/internal/infra/cache/user_interest_cache.go:94-127 | counting a view again leaves a coordinate alone if and only if the view lies on the mean there |
| Interest.ColdCacheStaysCold | backend/internal/infra/cache/user_interest_cache.go:101-105 | without a stored baseline no sequence of views makes one: Load still misses |
| Interest.MisfitIsDropped | backend/internal/infra/cache/user_interest_cache.go:98-118 | a vector or a snapshot of another dimension ends in a miss |
| Interest.OthersKeepTheirs | backend/internal/infra/cache/user_interest_cache.go:79-126 | neither Store nor Apply touches what another user loads |
| Interest.EventWeight | backend/internal/domain/recommendation/entity.go:247-263 | between 1 and 3 for recorded views; a completed view 3; a play grows linearly up to 30 seconds and saturates; anything else 1 |
| Interest.AggregateUserInterestVector | backend/internal/infra/persistence/recommendation/gorm.go:146-197 | the accumulate and divide loops compute weight and weighted mean of the newest 200 positive views, which are all of them up to 200 |
| Interest.NewestArePrefix | backend/internal/infra/persistence/recommendation/gorm.go:147-154 | the rows aggregated are the positive views of the newest few: of all, or of just enough to make the limit full |
| Interest.UserInterestCache.Load | backend/internal/infra/cache/user_interest_cache.go:47-76 | the mean of a usable snapshot; an unusable one is dropped and reads as a miss |
| Interest.UserInterestCache.Store | backend/internal/infra/cache/user_interest_cache.go:79-88 | the scaled sum and weight, or nothing for unusable arguments |
| Interest.UserInterestCache.Apply | backend/internal/infra/cache/user_interest_cache.go:94-127 | sum and weight moved by one view; skipped without a baseline; dropped when dimensions disagree |
| HotRank.WindowIsDirectSum | backend/internal/infra/cache/hot_rank_cache.go:55-68 | a rebuilt window holds exactly the videos whose deltas over its 60 minutes sum to more than 0, with that sum |
| HotRank.RebuiltIsNamed | backend/internal/infra/cache/hot_rank_cache.go:55-68 | a rebuilt window holds nothing but members written for ids |
| HotRank.WindowScoreIsHotScore | backend/internal/domain/feed/entity.go:134-136 | when every recorded delta lies in the window, a video's window score is the hot score of its current counts |
| HotRank.MemberRoundTrip | backend/internal/infra/cache/cache_keys.go:105-116 | reading a member gives back the id it was written for |
| HotRank.MemberOrderIsNumeric | backend/internal/infra/cache/cache_keys.go:105-107 | the byte order of padded members is the numeric order of ids |
| HotRank.ItemsAreRanked | backend/internal/infra/cache/hot_rank_cache.go:70-91 | higher scores first, among equal scores the higher id |
| HotRank.OffsetPagesTile | backend/internal/application/feed/strategy_hot.go:60-92 | following NextCursor over one window lists exactly its videos with their scores, each once, the higher ranked first |
| HotRank.HotRankCache.AddHotScore | backend/internal/infra/cache/hot_rank_cache.go:18-28 | the delta lands in the bucket of its minute; a window already built stays as it is |
| HotRank.HotRankCache.HotWindowMinuteKeys | backend/internal/infra/cache/cache_keys.go:97-103 | the sixty minutes up to the window's end, oldest first |
| HotRank.HotRankCache.ListHotWindowPage | backend/internal/infra/cache/hot_rank_cache.go:31-91 | the slice of the window's ranking, from the cached window or one rebuilt from the buckets and kept |
| HotRank.HotStrategy.ListPageFromHotWindow | backend/internal/application/feed/strategy_hot.go:60-92 | consecutive slices with exact HasMore and the next offset |
| Decimal.LessIsNumeric | backend/internal/infra/cache/cache_keys.go:105-107 | between digit strings of one length the byte order is the numeric order |
| Decimal.PaddedFits | backend/internal/infra/cache/cache_keys.go:105-107 | padding keeps the value, and trimming zeros undoes it |

## Left out

- HTTP handlers, DTOs, router, middleware, authentication, configuration, metrics, logging: plumbing and library calls.
- The React client, upload, transcoding, storage, playback and accounts: UI state, or validation and I/O with little branching.
- Cursor encodings (base64, JSON, RFC 3339): cursors are records. Sorted-set members of the following index are records too and always decode; their text form and its parser are not modelled.
- Trimming and normalising of strings: arguments arrive trimmed, and the length limit applies to what arrives.
- Time to live of every Redis key, the 15-second JSON copy of the counters, and reads torn across separate Redis calls: the counter view and the reconcile pipeline are atomic.
- Failing infrastructure calls, except those the branches depend on: a failed publish, a failed republish, a lost acknowledgement, an unreachable dedup store, a failing interest update.
- Redis Pub/Sub, the migration of a queue after error 406, wildcards of topic routing, SQL planning and row locks.
- Notifications and messages sent on follow and comment, preheating of feed cards, stat-cache refresh after comments: effects outside the modelled state.
- 64-bit wrap-around of counters and scores: integers are unbounded; following scores stay exact in float64 below 2^53.
- Rounding of floating point: scores and vectors are reals. `RankScore`, similarity and freshness enter as a function from candidates to scores.
- Order of elements that compare equal under the source's comparators: video ids are distinct wherever a result depends on it; the comparators here break the last tie by author.
- Clients of the hub are values in a map keyed by id, so the lock of a channel and the lock of the hub are steps, not locks.
- Redis commands (ZADD, ZREMRANGEBYRANK, ZREVRANGEBYSCORE, ZUNIONSTORE, HSETNX, SETNX) are functions on the stored values.
- Listing comments, followers and followed users, the timeline and the hot page of the plain repository: single queries that would only add easy members.
- Exposure decisions and writes: validation and upserts with little branching.
- Delivery.RabbitMQ.EnsureTopology: declares the four business bindings only; dead-letter exchanges and queues are not bindings here, because a dead-lettered copy is recorded with its queue, and the migration after error 406 is left out.
- ActionPipeline.Convergence: does not cover a failed publish falling back to the synchronous path, or out-of-order retries of action events: both are outside the claim.
- FollowingFeed.IndexRefinesQuery: does not cover authors crossing the big-creator threshold while their videos are in inboxes, because the source does not migrate them.
- FollowingStrategy.Strategy.ListPage: equals the plain query only while the index is faithful; a non-empty inbox that misses videos (a cold or trimmed index) is used as it is, as in the source.
