# Vidmerce: the protocols behind likes, views, limits, feed and stats

Vidmerce is a Go backend whose interesting parts are small protocols between
the API processes, Redis, Postgres, ClickHouse and a few workers. This project
models five of them and proves what they keep over whole runs. Where the code
does less than its documentation says, the code is modelled as it is, and a
theorem says exactly when the promise holds.

| part | files | main results |
|---|---|---|
| Like pipeline | `LikeRepository`, `LikeReplay`, `LikeReconciler`, `LikePipeline` | hot counters are exact; the tables converge to the Redis sets exactly under a stated condition; drift never grows; replays are invisible exactly from non-negative drift; when a reconciler visit leaves an exact counter, and a bound on its whole pass |
| Leaky bucket | `LeakyBucket`, `BucketErasure` | the one stored level decides exactly as checking every sliding window would; rejected calls and idle eviction leave no trace, each with its exact condition; the retry time is exact |
| View pipeline | `Text`, `ViewPolicy`, `ViewTrack`, `ViewWorker`, `Rollup` | keys never collide; the physics cap and the unique window over interleaved calls; what survives restarts of the worker; the stats query counts exactly what the API accepted |
| Feed | `FeedKeys`, `FeedPull`, `FeedCache`, `FeedPush`, `FeedModes` | exactly-once paging in both modes while videos come and go; concurrent publishes and warm-ups are confluent; when push pages equal pull pages |
| Stats lock | `StatsLock` | lock safety over all interleavings of replicas; when two queries run at once, and when one still starts on cached stats |

## How to read it

Stores are maps, sets and sequences. Each script, statement or loop of the
source is a method that changes a class's fields, proved against a function of
the same step (`Statement`, `Script`, `Work`, `Iterate`, `PushFetch`, ...);
the theorems are about those functions over arbitrary runs. Concurrent parts
are transition systems with one action per atomic store operation, in any
order, with failures as part of the action. `Common` holds the usual option and
result types and a few shared facts.

Conventions:

- Ids are numbers in the like, feed and stats models (the numeric order of UUIDs
  is the order of their text) and canonical text in the Redis keys of the view
  model, where the text matters. IP and user-agent hashes are texts of length 32
  and 16.
- Times are integer milliseconds (microseconds for feed keys), rates and levels
  are exact reals. A Redis key with an expiry is gone once the expiry is reached;
  application and Redis read one clock. Lifetimes that the code forces or expects
  to be positive are positive.
- A failed database statement changes nothing; a failed batch insert lands
  nothing (internal/view/worker.go:264-267).

## Where the code and its documentation disagree

- internal/like/worker.go:153-155 says that a failed entry is redelivered. The
  worker only ever reads `>`, so it is not. `LikePipeline.ConvergesIff` gives the
  exact condition under which the tables still converge, and
  `LikePipeline.FailedApplyDiverges` a run in which one failed statement loses a
  like for good.
- internal/view/worker.go:115-117 says that pending entries are reclaimed on
  startup. This worker reads `>` too. Over any number of restarts everything is
  inserted exactly when every process ended with an empty batch
  (`ViewWorker.AllInsertedIff`); what a process held is never acknowledged
  (`ViewWorker.LostIsNeverAcked`), and a plain stop while the sink is down loses it
  (`ViewWorker.StopCanLoseABatch`).
- internal/like/worker.go:22-24 says that replays are no-ops. One redelivered
  entry is a no-op exactly when it is what its user did last
  (`LikeReplay.SingleReplayNoopIff`); a replayed tail of the log is invisible
  exactly when the counter is not below the number of edges
  (`LikeReplay.ReplaySafeIff`, with inputs in `LikeReplay.ReplayWitness`).
- internal/like/worker.go:19-20 says that the reconciler only fixes drift. Its
  three statements are not atomic. An error-free visit leaves an exact counter
  exactly when, for a row it finds clean, the counter did not move between its two
  reads, and, for a row it rewrites, the number of edges did not change before the
  write (`LikeReconciler.VisitIsExactIff`). It can turn an exact counter into a
  drifted one (`LikeReconciler.PassCanBreakAnExactCounter`) and take a drifted one
  for clean (`LikeReconciler.CleanCanBeDrifted`).
- internal/view/policy.go:41-42 promises at most 60/d full watches a minute. The
  bucket keeps that promise exactly for videos of more than 30 and at most 60
  seconds (`ViewPolicy.CountsWatchableViewsIff`). Shorter ones admit a burst of as
  many views as the bucket holds, and within the minute one more
  (`ViewPolicy.BurstExceedsCapacity`); longer ones still get one view a minute, for
  ever, because 60/d is rounded up to 1 (`ViewPolicy.LongVideosExceedTheMinute`).
  The bound that holds for every length is `ViewTrack.PhysicsCap`. Because 60/d is
  otherwise rounded down, back-to-back full plays are refused now and then unless d
  divides 60 or is at least 60 (`ViewPolicy.HonestViewerAlwaysCountsIff`).
- internal/feed/domain.go:69-70 says that the next cursor is non-empty exactly
  when more videos follow. That holds in pull mode (`FeedPull.PageContract`). In
  push mode the feed skips entries tied with the cursor
  (`FeedModes.PushEqualsPullIff`, input `FeedModes.TiedVideoIsSkipped`), ends early
  past the cache's cap (`FeedModes.PushIsTheFullFeedIff`, input
  `FeedModes.PushEndsAtTheCap`) and ends when a cached row is gone
  (`FeedModes.PushGoesOnIff`, input `FeedModes.DeletedVideoEndsTheFeed`).
- The repository's README.md:173-176 expects one backend query per cache window.
  Counted over whole runs of all replicas, a window sees at most one query exactly
  when no fetch waits in vain, and none wins the lock, while the stats are cached
  or on their way into the cache, provided no compute or write is interrupted
  (`StatsLock.OneQueryPerWindowIff`); each interruption costs at most one more
  (`StatsLock.InterruptionsCostOneEach`). Three inputs with nothing failing: a
  replica that waited queries while the other still does
  (`StatsLock.TwoQueriesAtOnce`), or after the other's query and before its write
  (`StatsLock.QueryBeforeTheWrite`), and a request that missed earlier queries on
  fresh stats (`StatsLock.QueryWithFreshCache`). Whether the last can still happen
  from a given state is decided by `StatsLock.NoLateQueryIff`.

## Model

| member | source | states |
|---|---|---|
| LikeRepository.Postgres.Apply | internal/like/repository.go:102-121 | one statement changes edges and counter together or, on error, not at all; it reports changed if and only if the edges differ, and the counter stored then |
| LikeRepository.StatementReports | internal/like/repository.go:55-100 | what both CTEs do to the edges and what they report, read off the tables before and after; only a new like of a video without a row fails |
| LikeRepository.Postgres.Count | internal/like/repository.go:123-130 | the stored counter, an error for a video without a row |
| LikeRepository.Postgres.CountFromEdges | internal/like/repository.go:132-139 | the number of users with an edge to the video |
| LikeRepository.Postgres.ReconcileCounter | internal/like/repository.go:141-153 | only this video's counter changes; the row count is 1 exactly when it differed |
| LikeRepository.ApplyTouchesOneRow | internal/like/repository.go:55-100 | an Apply acts on its own video's slice only, and on that as the slice step says; no other pair changes |
| LikeRepository.RunOfRow | internal/like/repository.go:55-100 | a whole log acts on each video exactly as that video's share of the log does |
| LikeRepository.DriftStep | internal/like/repository.go:79-100 | an Apply never increases the absolute drift; drift changes only through the clamp at zero, which needs a counter already below the edge count |
| LikeRepository.DriftOverRun | internal/like/repository.go:55-100 | over any log drift never grows in size, never changes sign, and stays exactly the same when not negative |
| LikeRepository.MovesOverRun | internal/like/repository.go:55-100 | neither the counter nor the edge count moves by more than the number of events |
| LikeReplay.LastOpDecides | internal/like/repository.go:55-100 | the last operation of a user in a log decides that user's edge, whatever came before |
| LikeReplay.ReplayKeepsUsers | internal/like/worker.go:22-26 | replaying any applied tail and then continuing ends with the same edges |
| LikeReplay.SingleReplayNoopIff | internal/like/worker.go:22-24 | one redelivered entry is a no-op if and only if it is the user's last operation |
| LikeReplay.ReplaySafeIff | internal/like/worker.go:22-24 | replayed tails are invisible, for all logs, if and only if the counter is not below the edge count |
| LikeReplay.ReplayWitness | internal/like/repository.go:85-91 | from any counter below the edge count there is a log whose replay changes the counter |
| LikeReplay.ReplayThenContinue | internal/like/worker.go:22-26 | on both tables and all videos: replaying any tail of the stream and continuing gives the same edges, and the same counter unless it was below the edge count |
| LikeReconciler.Once | internal/like/reconciler.go:69-123 | a pass with worker statements landing before, between and after its three steps and any of them failing ends in the state of `Pass`, with the three tallies it reports |
| LikeReconciler.TalliesCount | internal/like/reconciler.go:74-116 | checked, drifted and corrected are the numbers of visits with both reads done, with a difference found, and with a row modified |
| LikeReconciler.VerdictMeans | internal/like/reconciler.go:75-104 | what was found on an id, in terms of the tables at its three statements and of which of them failed |
| LikeReconciler.FailingVisitWritesNothing | internal/like/reconciler.go:76-103 | if any of the three statements fails, both tables are what the worker alone leaves |
| LikeReconciler.WorkerApplies | internal/like/worker.go:101-103 | the worker's statements in a gap of the pass run in order |
| LikeReconciler.VisitBoundsDrift | internal/like/reconciler.go:75-95 | from any drift, after an error-free visit the drift is at most the number of events that landed on the video in between |
| LikeReconciler.VisitIsExactIff | internal/like/reconciler.go:75-95 | an error-free visit leaves an exact counter if and only if the counter did not move between its two reads, for a clean row, or the number of edges did not change before the write, for a rewritten one |
| LikeReconciler.VisitLeavesTheRest | internal/like/reconciler.go:75-95 | whatever the verdict, edges and the rows of other videos are as the worker alone would leave them, and everything is unless the visit writes |
| LikeReconciler.PassBoundsDrift | internal/like/reconciler.go:69-123 | from its visit to the end of the pass, a sampled video's drift is at most the events on it between its own reads and write |
| LikeReconciler.QuietPassHeals | internal/like/reconciler.go:75-112 | without interference every sampled counter becomes exact and nothing else changes |
| LikeReconciler.CleanIffExact | internal/like/reconciler.go:90-93 | without interference a row is found clean, and left untouched, if and only if it is exact |
| LikeReconciler.PassCanBreakAnExactCounter | internal/like/reconciler.go:76-95 | two likes around the edge count leave an exact counter one too low, from where replays change counters |
| LikeReconciler.CleanCanBeDrifted | internal/like/reconciler.go:76-93 | a like between the two reads makes a drifted counter look clean, and it stays drifted |
| LikePipeline.RedisStore.LikeScript | internal/like/service.go:43-84 | the script's branches on the per-user sets, the counter and the stream equal `Script`; any other op changes nothing and is an error |
| LikePipeline.ScriptKeepsCountersExact | internal/like/service.go:53-81 | the counter of every video stays the number of users whose set holds it, the reply reports it, and an event is emitted exactly when a set changed |
| LikePipeline.ScriptTouchesOnePair | internal/like/service.go:53-81 | from any counters: the reply is the counter stored, an unlike never leaves it below zero, nothing else changes |
| LikePipeline.OthersDo | internal/like/reconciler.go:95 | what happens around the worker: a malformed entry is one more entry, a reconciler write one counter, and nothing else |
| LikePipeline.ReplaysAgreeIff | internal/like/repository.go:55-100 | two replays of a backlog agree on a pair if and only if they started in agreement or the backlog mentions it |
| LikePipeline.StreamInvStep | internal/like/service.go:53-81 | every action keeps: the liked sets are the replay of the whole stream, and each event flips a member |
| LikePipeline.EdgeInvStep | internal/like/worker.go:138-170 | every action keeps: an edge differs from what the handled stream prescribes exactly while an odd number of its events failed in a row |
| LikePipeline.Reachable | internal/like/worker.go:87-104 | these invariants hold in every reachable state, for any interleaving of requests, deliveries, applies, acks, crashes and reconciler writes |
| LikePipeline.ConvergesIff | internal/like/worker.go:101-103 | replaying the unhandled stream on the edges gives a pair its Redis value if and only if the backlog mentions it or an even number of its events failed since the last applied one |
| LikePipeline.BacklogDecidesIff | internal/like/worker.go:138-170 | the same equivalence from the invariant alone |
| LikePipeline.DriftStaysZero | internal/like/repository.go:55-100 | without reconciler writes an exact Postgres counter stays exact through every run |
| LikePipeline.EdgesOnceDrained | internal/like/worker.go:101-103 | drained without a failed Apply, the edges are the Redis sets, whatever the reconciler wrote |
| LikePipeline.ExactOnceDrained | internal/like/worker.go:101-103 | with exact counters at the start and no reconciler write, each Postgres count is then the hot counter |
| LikePipeline.ReconciledOnceDrained | internal/like/reconciler.go:69-123 | after any reconciler writes and from any drift, one undisturbed pass then makes every sampled count the hot counter |
| LikePipeline.OnlyHandledEntriesAreAcked | internal/like/worker.go:152-169 | an entry whose Apply failed, or that a crash dropped, is still pending |
| LikePipeline.PendingIff | internal/like/worker.go:138-170 | after any run a delivered entry is pending if and only if it was not handled successfully or no XACK of it went through |
| LikePipeline.NothingPendingWhenAllGoesWell | internal/like/worker.go:138-170 | if no statement, XACK or process fails, every handled entry was applied or dropped and is acknowledged; drained, nothing is pending |
| LikePipeline.DeliverHandsOut | internal/like/worker.go:117-136 | a read hands out as many new entries as it may, all of them pending then |
| LikePipeline.FailedApplyDiverges | internal/like/worker.go:117-136 | one failed Apply: the stream drains, the entry stays pending, the edge stays missing |
| LikePipeline.Worker.Read | internal/like/worker.go:117-136 | a read of new entries is the Deliver action |
| LikePipeline.Worker.ProcessEntry | internal/like/worker.go:138-170 | one entry is the Process action followed by the Ack action |
| LikePipeline.Worker.ProcessBatch | internal/like/worker.go:101-103 | the loop over one read is the run of its entries' actions in order |
| LikePipeline.BatchPrefix | internal/like/worker.go:101-103 | handling one more entry of a read extends the run by that entry's two actions |
| LeakyBucket.Store.Allow | internal/platform/ratelimit/leakybucket.go:118-141 | the script on one key equals `Script` on what is found under it, allows the call if and only if it fits, renews the expiry (an hour for a TTL that is not positive) and touches no other key |
| LeakyBucket.ScriptReplies | internal/platform/ratelimit/leakybucket.go:63-79 | the reply allows a call if and only if it fits the level found, only then is it charged; nothing to wait for when allowed; remaining is what the stored level leaves, in whole units |
| LeakyBucket.LeaksCompose | internal/platform/ratelimit/leakybucket.go:55-61 | leaking in two steps is leaking once, with the floor at zero; a level never falls faster than the rate |
| LeakyBucket.ScriptKeepsRange | internal/platform/ratelimit/leakybucket.go:55-79 | the level stays in [0, capacity] for any clock; remaining and retry are in range |
| LeakyBucket.AdmissionBound | internal/platform/ratelimit/leakybucket.go:55-79 | over any run, also with a clock stepping back, the admitted cost is at most the free capacity plus the leak over the forward clock movements |
| LeakyBucket.WindowBound | internal/platform/ratelimit/leakybucket.go:85-93 | with a clock that does not step back: at most capacity plus the leak over the window |
| LeakyBucket.LevelCoversWindows | internal/platform/ratelimit/leakybucket.go:55-69 | the level is at least what the calls since any earlier call left behind |
| LeakyBucket.LevelIsAWindow | internal/platform/ratelimit/leakybucket.go:55-69 | the level is zero or exactly what the calls since some earlier call left behind |
| LeakyBucket.AdmittedIffConforms | internal/platform/ratelimit/leakybucket.go:55-79 | the script's reply allows a call if and only if it fits every sliding window that ends with it |
| BucketErasure.RejectionsAreInvisible | internal/platform/ratelimit/leakybucket.go:55-76 | deleting every rejected call of a run keeps all other decisions, the admitted total and all later levels |
| BucketErasure.RejectionInvisibleIff | internal/platform/ratelimit/leakybucket.go:59-75 | a single rejected call is invisible later if and only if the clock had not stepped back or the bucket was empty |
| BucketErasure.EvictingRunIsTheSame | internal/platform/ratelimit/leakybucket.go:75-76 | when a full bucket drains within the TTL, a run with evictions stores the same buckets |
| BucketErasure.EvictionUnobservableIff | internal/platform/ratelimit/leakybucket.go:89-92 | no run of calls can observe eviction if and only if capacity is at most the leak over the TTL |
| BucketErasure.RetryTimeIsExact | internal/platform/ratelimit/leakybucket.go:63-79 | after a refusal the reply at t allows the call if and only if t is at or after now + retry_after, whatever rejected calls came between |
| BucketErasure.FitsFromRetryOn | internal/platform/ratelimit/leakybucket.go:70-73 | the rounded-up retry time is the first millisecond at which enough has leaked |
| BucketErasure.ImpatientCallsAreRejected | internal/platform/ratelimit/leakybucket.go:63-76 | every call of that cost or more before the retry time is rejected, so calling early does not postpone admission |
| Text.IntRoundTrip | internal/view/worker.go:241-245 | every 64-bit time survives the stream as decimal text |
| ViewPolicy.ThresholdIsAThird | internal/view/policy.go:21-38 | the threshold passes a view exactly when one more millisecond would exceed a third of the video |
| ViewPolicy.RatePolicyIsSound | internal/view/policy.go:43-60 | whenever a bucket applies there is no division by zero, capacity is at least 1, a minute leaks exactly the capacity and eviction is unobservable |
| ViewPolicy.CapInSeconds | internal/view/policy.go:40-60 | from the bucket's window bound to watch time: views × d ≤ 60 + T, or 1 + T/60 for long videos |
| ViewPolicy.CountsWatchableViewsIff | internal/view/policy.go:40-60 | the views that get through in any minute, from any bucket state, take at most a minute to watch, if and only if 30 < d ≤ 60 |
| ViewPolicy.CapsEveryMinuteIff | internal/view/policy.go:43-59 | no minute sees more views than the bucket's capacity, from any bucket state, if and only if d is over 30 |
| ViewPolicy.LongVideosExceedTheMinute | internal/view/policy.go:50-53 | over a minute long: n views get through in n-1 minutes for every n, though they take more than n minutes to watch |
| ViewPolicy.BurstExceedsCapacity | internal/view/policy.go:50-59 | as many views at once as the bucket holds, then one when a unit has leaked, are all admitted: one more than the capacity, within a minute if that is at least 2 |
| ViewPolicy.SomePlayIsRefused | internal/view/policy.go:50-53 | when a full play leaks less than one unit, a viewer who replays honestly is refused at some point |
| ViewPolicy.HonestViewerAlwaysCountsIff | internal/view/policy.go:40-60 | back-to-back full plays are always counted if and only if d divides 60 or is at least 60 |
| ViewTrack.SubjectKeysAreInjective | internal/view/domain.go:59-64 | two viewers share a subject key only if they are the same |
| ViewTrack.KeysAreInjective | internal/view/unique.go:23-25 | bucket and marker keys of distinct (subject, video) pairs never collide |
| ViewTrack.Service.Allow | internal/view/filters.go:62-81 | each filter's vote and its effect on the bucket, with fail-open and fail-closed errors |
| ViewTrack.Service.Apply | internal/view/filter.go:46-60 | the loop stops at the first "no" and names it |
| ViewTrack.Service.LookUp | internal/view/service.go:48-50 | the cached length replaces the client's when it is there and positive |
| ViewTrack.Service.MarkUnique | internal/view/service.go:59-71 | one SETNX with expiry; a failing one counts as non-unique and sets nothing |
| ViewTrack.Service.Emit | internal/view/service.go:73-101 | appends exactly the call's entry, or fails and appends nothing |
| ViewTrack.Service.Track | internal/view/service.go:47-102 | one call is its four store operations in order, each able to fail and with its own clock reading |
| ViewTrack.AloneIsTrack | internal/view/service.go:47-102 | a call whose operations follow each other undisturbed is Track |
| ViewTrack.LookDecides | internal/view/service.go:48-50 | the length is the cached one if known and positive, else the client's; nothing else of the view changes |
| ViewTrack.WatchVote | internal/view/filters.go:27-36 | the watch rule accepts if and only if over a third of a rated length, or the configured minimum of an unknown or short one, was watched |
| ViewTrack.RateVote | internal/view/filters.go:62-81 | the rate rule accepts if and only if the length is not rated, the bucket has room for one more view, or the limiter is down and the service goes on; only an accepted view is charged |
| ViewTrack.FiltersDecide | internal/view/filter.go:46-60 | which calls get through the filters, which of the refusals the others get, and that a view not watched enough leaves no trace |
| ViewTrack.WiredChain | internal/view/filter.go:46-60 | as wired, a view below the threshold never reaches the bucket and only the pair's bucket can change |
| ViewTrack.WorkEffects | internal/view/service.go:47-102 | each operation touches one kind of key in its turn only; a counted view appends exactly its own entry; a rejected or answered call touches nothing any more |
| ViewTrack.VoteOnBucket | internal/view/filters.go:62-81 | votes for other pairs leave a pair's bucket alone, an accepting one for it raises its level by one |
| ViewTrack.StepOnBucket | internal/view/service.go:47-57 | the same for any operation of any call that runs at once |
| ViewTrack.CountedHavePassed | internal/view/service.go:52-101 | over any interleaving every counted view passed the filters first, and once |
| ViewTrack.PassedIsCovered | internal/view/service.go:47-57 | over any interleaving the views of a pair that pass are covered by its level's rise and the leak over the clock's forward movements |
| ViewTrack.PhysicsCap | internal/view/policy.go:40-60 | over any interleaving of all viewers' calls, and with a clock that may step back: n × d ≤ 60 + T for d ≤ 60 and n ≤ 1 + T/60 for d ≥ 60, for the n views that pass while the clock moves T seconds forward |
| ViewTrack.PhysicsCapInWindow | internal/view/policy.go:40-60 | with a clock that does not step back, the same for the views counted in any window of T seconds, but for those already on their way at its start |
| ViewTrack.StepOnMarker | internal/view/unique.go:29-35 | a pair's marker is set only by a call of that pair that reaches it, exactly when it has run out |
| ViewTrack.MarkerDecides | internal/view/unique.go:27-35 | over any interleaving, a call that asks the marker sets it if and only if no earlier setting is less than the TTL ago |
| ViewTrack.UniqueIff | internal/view/service.go:59-71 | over any interleaving, a counted view is flagged unique if and only if its question to the marker went through and no call of the pair set the marker less than the TTL before |
| ViewTrack.UniqueViewsAreApart | internal/view/service.go:59-71 | two views of one pair counted as unique asked the marker at least the TTL apart |
| ViewTrack.AskedBefore | internal/view/service.go:59-77 | the flag a call appends is the answer it got to its own question |
| ViewWorker.EntriesRoundTrip | internal/view/worker.go:213-247 | every entry Track appends parses back to the same view |
| ViewWorker.ParsesIff | internal/view/worker.go:213-247 | an entry is malformed if and only if its video id, a hash length or its time is; an unreadable viewer id makes it anonymous |
| ViewWorker.Worker.DoFlush | internal/view/worker.go:178-208 | insert, then ack; a failed insert keeps the batch, a failed ack does not |
| ViewWorker.Worker.Append | internal/view/worker.go:144-157 | well-formed entries join batch and ids, malformed ones are acked and dropped |
| ViewWorker.Worker.Loop | internal/view/worker.go:114-164 | the consume loop with both flush triggers, timeouts, errors and cancellation equals `RunTicks` |
| ViewWorker.TickDoes | internal/view/worker.go:144-163 | after a read that brought entries or timed out, everything collected is inserted if and only if it is enough or has waited long enough and the insert goes through, and acknowledged if that goes through |
| ViewWorker.TickDrops | internal/view/worker.go:146-152 | malformed entries of a read are acknowledged if that goes through |
| ViewWorker.StopDoes | internal/view/worker.go:114-142 | a stop inserts what is collected if the sink takes it, and acknowledges it; a failed read changes nothing |
| ViewWorker.NoViewWaits | internal/view/worker.go:160-163 | while inserts go through, a batch left after a read is below the flush size and the last insert less than the flush interval ago |
| ViewWorker.StopEmptiesTheBatch | internal/view/worker.go:115-119 | a stop whose insert goes through leaves nothing in memory |
| ViewWorker.AckedIff | internal/view/worker.go:146-200 | while XACKs go through, the acknowledged ids are exactly those of inserted rows and malformed entries |
| ViewWorker.IterateConserves | internal/view/worker.go:114-164 | each iteration keeps conservation, alignment and ack safety |
| ViewWorker.RunConserves | internal/view/worker.go:114-208 | in every run inserted rows plus the batch are the well-formed delivered entries in order; ids stay aligned; an acked id was inserted before or is malformed |
| ViewWorker.NothingInsertedTwice | internal/view/worker.go:178-208 | no entry is inserted twice |
| ViewWorker.BatchStaysSmall | internal/view/worker.go:160-163 | while inserts succeed the batch is below the flush size after every iteration |
| ViewWorker.RunSessions | internal/view/worker.go:92-165 | process after process, each starts with an empty batch; together they do what `AllEffects` says |
| ViewWorker.SessionsConserve | internal/view/worker.go:114-208 | over any number of stops and crashes every well-formed delivered entry was inserted or was in the memory of a process that ended, once |
| ViewWorker.AllInsertedIff | internal/view/worker.go:115-119 | everything delivered is inserted if and only if every process ended with an empty batch |
| ViewWorker.LostIsNeverAcked | internal/view/worker.go:178-208 | what a process held when it ended is never acknowledged, by it or a later one |
| ViewWorker.StopCanLoseABatch | internal/view/worker.go:115-138 | a stop while the sink is down: the next process finds nothing new, the entry is in no row and in no ack |
| Rollup.BlockCounts | migrations/clickhouse/0001_init.up.sql:34-42 | the grouped rows of a block sum to the block's counts, for every video on every day |
| Rollup.MergeKeepsSums | migrations/clickhouse/0001_init.up.sql:24-32 | a background merge of two rows of one key changes no sum |
| Rollup.RollupIsExact | internal/stats/views_repo.go:41-54 | after any inserts and merges the sums over one day or, as in the stats query, over all are the numbers of inserted events and of unique ones; unique is at most total |
| Rollup.DayMeans | migrations/clickhouse/0001_init.up.sql:37 | an event is counted on the day its time lies in |
| Rollup.StreamHoldsTheAccepted | internal/view/service.go:73-101 | the stream holds, view for view, what Track accepted, however its calls interleave |
| Rollup.SessionsCount | internal/view/worker.go:114-208 | for every video, inserted rows and lost batches count what was delivered |
| Rollup.AcceptedViewsAreCounted | internal/stats/views_repo.go:41-54 | end to end: once the stream was delivered, the query counts exactly the views Track accepted, total and unique, except those a stopped or crashed worker held |
| FeedPull.Repository.FeedPage | internal/video/repository.go:103-150 | the row loop returns at most limit rows after the cursor, newest first by (created_at, id) |
| FeedPull.Repository.FindByIDs | internal/video/repository.go:75-96 | exactly the existing rows with the given ids, once each, in any order |
| FeedPull.PageContract | internal/feed/domain.go:69-74 | a page holds the newest rows after its cursor and has a next cursor if and only if more rows follow; that cursor decodes to its last item |
| FeedPull.DecodeMeans | internal/feed/domain.go:48-64 | the empty cursor is the start of the feed; a token is rejected if and only if its id or time is the zero one |
| FeedPull.LimitsArePositive | internal/feed/pull.go:33-36 | a limit that is not positive is an error, and the only one |
| FeedPull.BrowseIsNewestFirst | internal/feed/pull.go:33-52 | following cursors gives strictly descending keys, whatever is inserted or deleted between fetches |
| FeedPull.BrowseMissesNothing | internal/feed/pull.go:33-52 | a video present at every fetch is seen by the time the end is reached |
| FeedPull.ExactlyOnce | internal/feed/pull.go:33-52 | a video present at every fetch appears exactly once |
| FeedPull.FixedTable | internal/feed/pull.go:33-52 | on a fixed table the pages concatenate to the whole feed and the loop ends within as many fetches as videos, plus one |
| FeedCache.TrimKeepsTheTop | internal/feed/push.go:68-70 | dropping ranks 0 to -cap-1 keeps exactly the cap highest entries |
| FeedCache.AddReplaces | internal/feed/push.go:64-67 | adding a cached video again moves it to its new score and touches no other |
| FeedCache.AddAllReplaces | internal/feed/push.go:89-99 | a warm-up's rows replace the scores of their members and keep all other entries |
| FeedCache.TopAbsorbsTop | internal/feed/push.go:56-59 | trimming early changes nothing a later trim would keep |
| FeedCache.TopIsNeverLost | internal/feed/push.go:56-59 | at any point of any interleaving the newest cap entries are those of everything ever there |
| FeedCache.PublishesConfluent | internal/feed/push.go:62-101 | once all concurrent publishes have finished, and one after every warm-up, the set is exactly the cap newest of all, in whatever order they ran |
| FeedCache.PublishOne | internal/feed/push.go:62-77 | a Publish of a new video on its own keeps the cap newest; the size is bounded by the cap |
| FeedPush.SortByOrder | internal/feed/push.go:166-176 | the in-place insertion sort gives a permutation sorted by listing position |
| FeedPush.HydratedInOrder | internal/feed/push.go:140-149 | rows in listing order have strictly increasing positions |
| FeedPush.RestoredOrder | internal/feed/push.go:142-149 | whatever order the rows came in, sorting them by position gives the listing's rows in listing order |
| FeedPush.PushFetcher.constructor | internal/feed/push.go:45-50 | a non-positive cap becomes 1000 |
| FeedPush.PushFetcher.Publish | internal/feed/push.go:62-77 | add then trim: for a new video, the cap newest of the old set and it |
| FeedPush.PushFetcher.Warmup | internal/feed/push.go:82-101 | adds exactly the cap newest videos of the table, and does not trim |
| FeedPush.PushFetcher.Fetch | internal/feed/push.go:110-160 | range, hydration in arbitrary order, in-place sort and cut equal `PushFetch` on every cache, table and cursor |
| FeedPush.FirstOfListingIsTop | internal/feed/push.go:82-97 | the first cap rows of the listing are the cap newest entries |
| FeedModes.PushEqualsPullIff | internal/feed/push.go:110-160 | with all cached rows present, a push page is the pull page over the cached videos if and only if no cached entry is tied below the cursor |
| FeedModes.PushCursorsAreNeverTied | internal/feed/push.go:105-109 | with distinct timestamps the start and every cursor handed out meet that condition |
| FeedModes.PushPageIsPullPage | internal/feed/push.go:110-160 | every push page, also with cached videos that are gone, is the pull page over the rows left of the first limit+1 entries below the cursor's score |
| FeedModes.PushPageIsUntiedPullPage | internal/feed/push.go:110-160 | with all rows there, it is the pull page over all entries not tied with the cursor |
| FeedModes.PushIsNewestFirst | internal/feed/push.go:110-160 | whatever is published, trimmed or deleted between fetches, cached videos included, the push feed is strictly newest first |
| FeedModes.PushExactlyOnce | internal/feed/push.go:110-160 | a video that stays cached and shares its microsecond with no other appears exactly once, while others come and go |
| FeedModes.BrowsePushIsBrowse | internal/feed/push.go:110-160 | if no two videos ever cached share a microsecond, following push cursors is following pull cursors over what is cached at each fetch |
| FeedModes.PushFeedIsTheCache | internal/feed/push.go:110-160 | followed to the end on a cache at rest, the push feed is the cached videos, newest first, each once |
| FeedModes.PushIsTheFullFeedIff | internal/feed/domain.go:69-74 | on the cap newest videos a push page is the pull page of the whole feed if and only if more than a page, or all there is, is still cached after the cursor |
| FeedModes.WarmCacheIsTheTop | internal/feed/push.go:79-101 | a warm-up from an older table, at any point among the publishes of all later videos: the cap newest of the table are cached, and nothing else once each was followed by a trim |
| FeedModes.PushGoesOnIff | internal/feed/push.go:153-157 | the push feed goes on if and only if more than a page is cached and none of its first limit+1 rows is gone |
| FeedModes.TiedVideoIsSkipped | internal/feed/push.go:103-116 | two videos of one microsecond, pages of one: the first page's cursor skips the second video; pull shows both |
| FeedModes.PushEndsAtTheCap | internal/feed/push.go:153-157 | any table of more videos than the cap: push ends after cap videos, pull goes on |
| FeedModes.DeletedVideoEndsTheFeed | internal/feed/push.go:133-157 | the newest of three cached videos deleted, pages of one: the third, still cached and in the table, is never shown |
| StatsLock.LockStore.AcquireLock | internal/stats/service.go:284-291 | takes the key exactly when it is free, with its own token |
| StatsLock.LockStore.ReleaseLock | internal/stats/service.go:296-313 | deletes the key only if it holds this token; every other live lock stays |
| StatsLock.ProceedKeeps | internal/stats/service.go:131-200 | a fetch gets the lock only from a SETNX on a free key and keeps its token and time until it returns |
| StatsLock.ProceedLocks | internal/stats/service.go:131-200 | a fetch changes a live lock only by releasing its own token |
| StatsLock.Reachable | internal/stats/service.go:108-200 | the invariants hold over all interleavings of requests, fetches, expiry, failures and crashes on all replicas |
| StatsLock.LockExcludes | internal/stats/service.go:284-291 | two unreleased holders of one video coexist only if the earlier one's TTL had passed; never do both hold unexpired locks |
| StatsLock.OnlyTheHolderUnlocks | internal/stats/service.go:293-313 | no step of anyone takes an unexpired lock away from its holder |
| StatsLock.AcquireMeans | internal/stats/service.go:149-162 | a SETNX that reaches Redis takes a free key even if its reply is lost; only an answered fetch goes on to query, the others wait |
| StatsLock.ReturnsIff | internal/stats/service.go:131-200 | when a fetch returns; one that got the lock goes on to release it whatever failed before |
| StatsLock.HolderReleasesFirst | internal/stats/service.go:182-194 | in every reachable state a lock holder leaves only by its release or a crash, and a release that goes through leaves its token in no live lock |
| StatsLock.CrashStallsNoLongerThanTheTtl | internal/stats/service.go:143-148 | a crash takes its replica's fetches and nothing else, and after the lock's lifetime every lock is free |
| StatsLock.AtMostOneFetchPerReplica | internal/stats/service.go:114-119 | the fetches running for one video are at most one per replica |
| StatsLock.FetchUsesUpItsQuery | internal/stats/service.go:131-200 | a step of a fetch never puts it back before its query, so it queries at most once |
| StatsLock.LateQueriesAreBounded | internal/stats/service.go:108-200 | while the stats stay cached, over any interleaving, the queries that still start are at most the requests that had missed before |
| StatsLock.NoLateQueryIff | internal/stats/service.go:108-200 | from a reachable state with fresh cached stats, no run queries again while they stay cached if and only if no request that missed is left |
| StatsLock.QueryStartsIff | internal/stats/service.go:149-184 | a query starts if and only if a fetch waited in vain, or won the lock while every querying fetch lacked one or had outlived its own |
| StatsLock.SecondStepIff | internal/stats/service.go:149-189 | with at most one query of a video running, its write included, a step ends that if and only if it is one of these while one runs |
| StatsLock.NeverTwoRunIff | internal/stats/service.go:108-200 | over a whole run of all replicas, two queries of a video, their writes included, never run at once if and only if no such step occurs |
| StatsLock.OneQueryPerWindowIff | internal/stats/service.go:108-200 | over any stretch of any run that starts with nothing cached or on its way and stays within one cache window, without interruptions: at most one query if and only if none starts while the stats are cached or on their way |
| StatsLock.InterruptionsCostOneEach | internal/stats/service.go:182-194 | with failing computes, failing writes and crashes: at most one query more for each |
| StatsLock.QueryBeforeTheWrite | internal/stats/service.go:165-190 | two replicas, nothing failing: the one that waited finds the cache empty after the other's query and before its write, and queries again |
| StatsLock.TwoQueriesAtOnce | internal/stats/service.go:165-180 | two replicas: the one that lost the lock waits once and queries too |
| StatsLock.QueryWithFreshCache | internal/stats/service.go:108-184 | one replica, nothing failing: a request that missed earlier wins the lock after the first fetch landed and queries again |

## Left out

- Floating point: levels, leaks and retry times are exact reals, so rounding in the script and the `Retry-After` header's truncation to seconds are not covered; leak rates are positive and capacities not negative.
- Stream trimming (MAXLEN), Redis memory eviction and replication.
- `Service.Count` of likes, which seeds a missing Redis counter for 24 hours from Postgres, possibly with a stale value; `CountersExact` excludes that step.
- Deleting videos or users in the like model, and the users foreign key; a like of a video without a stats row is a failed statement.
- Field parsing in the like worker: a stream entry is an event or a malformed one.
- Which videos the reconciler samples and in which order; passes take any list, and nothing is claimed about covering all videos.
- Liveness: redelivery, catch-up times, latencies. Retries happen only where the code retries.
- Operations that take effect although their reply is lost, except the SETNX of the stats lock: elsewhere an operation that fails changes nothing.
- ViewTrack.UniqueIff: a zero TTL, which the Redis client turns into a key without expiry, and a service built without a marker are not modelled; a marker that was set stays set when the append after it fails, so a call without a counted view can use up a window.
- The TTL of cached durations: a cached length stays as it is during a run.
- uuid.Parse accepts three more spellings than the 36-character one; entries written by Track use that one.
- The raw view table, its columns and its 90-day TTL: the roll-up is fed by inserts and keeps no expiry.
- The cursor's JSON and base64 form: a cursor on the wire is an opaque token.
- A Publish whose ZADD is lost: its video is then missing from the cache; a lost trim is covered by `FeedCache.TopIsNeverLost`.
- A page query that fails in Redis or Postgres: Fetch then returns that error and nothing else.
- The payload of the stats cache, `engagementRate` and the two backend queries' values; the lock model only knows that stats are cached until a time.
- A singleflight caller whose own request is canceled, and the error value shared with the callers that joined.
- Auth, products, video CRUD, Bloom filter, JSON cache, metrics, HTTP and configuration: easy members without deep invariants.
