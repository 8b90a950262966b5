# Gateway routing and protection, verified

This project models the part of the LLM gateway that decides which upstream is tried, when, and how often, together
with the caches and counters whose incremental state must agree with a simple specification, and proves properties of
that model in Dafny 4.11. `dafny verify dfyconfig.toml` checks all of it.

| module | what it models |
|---|---|
| `Breaker` | the consecutive-failure circuit breaker, its histories, and runs against a dead upstream |
| `Overlaps`, `Pacing` | what the breaker promises after its timeout and when requests overlap, at once and over time, and what it does not |
| `Routing`, `WeightedOrder` | circuit keys, fallback chains, route queues, configuration, and the weighted random order |
| `Upstream`, `Registry`, `RegistryRuns` | the failover loop over mutable breakers, and runs of one request after another |
| `TokenBucket`, `TwoTier`, `FixedWindow` | the lazily refilled bucket, the model tier in front of the global tier, the Redis counter |
| `Vectors`, `CacheTypes`, `L1Cache`, `L2Cache` | cosine similarity, cached formats and their JSON, the exact and the semantic cache |
| `ChatTypes`, `ChatHandler` | the chat endpoint: rewriting, validation, both caches, the registry, and provenance of every entry |
| `Traces`, `Sessions`, `WorkflowTracer` | workflow traces, session summaries against batch tallies, and the replay log |
| `UsageStats` | running usage statistics against the batch over the history |
| `RetryLoop`, `HealthLog` | the embedding client's retries and backoff, and its cached health under overlapping callers |
| `Listings`, `Options`, `Text` | taking set members one by one, optional values, string helpers |

Modelling decisions. What the clock, the random source, the upstreams and the embedding worker answer is a parameter of
the operation that asks (a `World`, or a single answer), so that contracts say what the operation makes of every answer;
only the order in which Redis lists keys is left open. Where several callers interleave, every mutex-protected or
server-side operation is one atomic step, and invariants hold between any two steps of any callers; a store into a cache
is one step too, but each read of its eviction answers or not on its own. `float64` is `real`;
square roots are a function whose value `r >= 0` satisfies `r * r == x`. Durations and clock readings are integers in
nanoseconds, and the zero instant is 0. Redis is a map, JSON an encoding with a round trip, and the SHA-256 cache key
a record of exactly what is hashed, so that equal keys mean equal requests.

What the proofs found, where code and expectation differ:

- **Circuit breaker, after the timeout.** The comment speaks of one trial (`internal/service/circuitbreaker.go:43`), but
  an expired `Allow` closes the breaker completely. Any number of overlapping checks is then admitted
  (`ExpiredAdmitsAnyNumber`); one at a time it is as many as the threshold, three in the gateway (`TrialsAfterExpiry`,
  `DefaultThresholdTrials`), so that one at a time the expired admission is the only trial if and only if the threshold
  is one (`OnlyTrialIff`). `DeniedIff` and `DeniedAfterExpiryIff` say exactly when a check is denied, after every history
  and whatever overlaps.
- **Circuit breaker, open mark.** A failure is stamped with the time of its admission check, so a report moves the open
  mark back if and only if its stamp is earlier than the streak's latest (`MarkMovesBackIff`). Reports in stamp order
  never do (`OrderedReportsKeepMark`); overlapping requests can, for every threshold (`OverlapMovesOpenMarkBack`).
- **Circuit breaker, dead upstream.** `DeadRouteBound` is for requests one at a time; two overlapping requests break it
  (`OverlapBreaksDeadBound`). With at most `c` calls unreported at any moment a period admits at most
  `threshold + c - 1` calls (`PeriodBound`), and can admit as many (`OverlapReachesPeriodBound`). If no call lasts longer
  than `d`, and `d` is less than the timeout, that makes at most `(threshold + c - 1) * (floor((t - first) / gap) + 1)`
  calls by any time `t` (`OverlapBoundOverTime`), where the gap is the timeout itself if `d` is less than half of it, and
  otherwise the timeout less `d`, which is exact (`CloseResets`). The gateway's HTTP client gives up after 30 seconds
  (`internal/service/provider/registry.go:48`), which is the open timeout, so the condition fails there: requests that
  fail one after the other, each lasting that long, are never denied (`NeverDenied`).
- **Circuit keys.** `provider:model` is injective for two provider names if and only if neither is the other continued
  past a colon (`CircuitKeyInjectiveIff`).
- **Fixed window.** Although Incr and Expire are separate steps and clients may stop in between, an interval no longer
  than the window grants at most `2 * limit - 1` requests, one fewer than twice the limit, and can grant as many
  (`ReachWindowBound`).
- **Semantic cache.** A search for what was just stored hits if and only if the threshold is at most 1. Eviction panics
  (an index past the end of an empty list) if and only if the cache is full and none of the listed entries answers when
  they are read one by one (`L2Cache.Store`). Nothing the handler stores is unreadable, but entries can run out of time
  between the listing and the reads: with a maximal size of 1 a single such entry is enough. The recovery middleware
  turns the panic into an internal error (`cmd/server/main.go:98`), although the provider's response is then already on
  record and in the exact cache (`StoreL2`, `StoreResponse`).
- **Cache sizes.** Both caches stay within their maximal sizes over all runs whose stores into one cache do not overlap
  (`Interleave`). Checking the size and writing are separate steps, so overlapping ones are not limited at all: `n` of
  them make an empty cache hold `n` entries (`OverlappingSets`).
- **Chat answers.** Whatever the order of the steps of whatever requests, a lookup finds only what an earlier call
  returned, for the same key or for the same model (`Interleave`).
- **Dead exits.** The registry's "no route" and "all routes failed" errors are unreachable; they are `assert false` here.
- **Replay.** The log rebuilds everything but, for some sessions, the last timestamp: a session is rebuilt exactly if and
  only if its latest trace is stamped alike in the file and in the order of application (`ReplayAgreesWithMemory`).
  Records of the session that do not overlap ensure it (`ReplayIsExactWithoutOverlap`, `ReplayedInTurn`); two that do can
  break it (`RecordOverlapping`, `OverlapReplaysLaterStamp`).
- **Health probes.** `Healthy` reads the clock before it takes its lock, and gives the lock up between reading the cache
  and storing what its probe found. Without overlap probes begin a lifetime apart (`ProbesAreRare`). With up to `c`
  callers inside, one lifetime sees at most `c * (c + 1) / 2` probes, since a slow old caller, storing last, makes the
  cache look out of date again (`CrowdBound`), and can see as many (`CrowdBoundIsReached`).

## Model

| member | source | states |
|---|---|---|
| Breaker.CircuitBreaker.constructor | internal/service/circuitbreaker.go:20-31 | starts closed with no failures; non-positive settings become 3 failures and 30 seconds |
| Breaker.CircuitBreaker.Allow | internal/service/circuitbreaker.go:34-50 | admits exactly when the breaker is not open at that time; an expired open period clears mark and count |
| Breaker.CircuitBreaker.RecordSuccess | internal/service/circuitbreaker.go:53-59 | clears mark and count, whatever they were |
| Breaker.CircuitBreaker.RecordFailure | internal/service/circuitbreaker.go:62-70 | counts, and stamps the open mark once the count reaches the threshold |
| Breaker.CircuitBreaker.IsOpen | internal/service/circuitbreaker.go:73-81 | answers the negation of what `Allow` would, without changing anything |
| Breaker.HistoryDeterminesState | internal/service/circuitbreaker.go:34-70 | under every interleaving the count is the number of failures since the last success or expired check, and the mark is the latest failure's stamp exactly when that number reaches the threshold |
| Breaker.LastResetIsLatest | internal/service/circuitbreaker.go:34-59 | the position that streaks are counted from is right after the latest clearing operation of the log |
| Breaker.TrippingCallKeepsBatch | internal/service/circuitbreaker.go:34-70 | a further failing call extends the current batch of calls, or opens a new one a timeout or more after the last |
| Breaker.DeadRunBatches | internal/service/circuitbreaker.go:34-70 | calls to an upstream that always trips form batches of at most the threshold, one per open period |
| Breaker.DeadRunBound | internal/service/circuitbreaker.go:34-70 | by any time t at most threshold * (floor((t - first) / timeout) + 1) such calls were made |
| Overlaps.DeniedIff | internal/service/circuitbreaker.go:34-50 | after every history a check is denied exactly when the streak has reached the threshold and its latest failure is less than a timeout old |
| Overlaps.DeniedAfterExpiryIff | internal/service/circuitbreaker.go:42-47 | after the check that finds the timeout over, a later check is denied exactly when the operations in between alone have tripped the breaker again |
| Overlaps.ExpiredAdmitsAnyNumber | internal/service/circuitbreaker.go:42-47 | once the timeout is over any number of overlapping checks is admitted: the first closes the breaker completely |
| Overlaps.TrialsAfterExpiry | internal/service/circuitbreaker.go:42-69 | even one at a time, as many failing requests as the threshold are admitted after the timeout before the breaker opens again |
| Overlaps.OnlyTrialIff | internal/service/circuitbreaker.go:42-69 | one at a time, an expired admission is the only trial if and only if the threshold is one |
| Overlaps.DefaultThresholdTrials | internal/service/circuitbreaker.go:42-69 | with the gateway's threshold of three, three trials follow each other before the breaker opens again |
| Overlaps.MarkMovesBackIff | internal/service/circuitbreaker.go:62-70 | after every history, a further report moves the open mark back if and only if its stamp is earlier than the streak's latest |
| Overlaps.OrderedReportsKeepMark | internal/service/circuitbreaker.go:62-70 | while failures are reported in the order of their stamps, the open mark never moves back, whatever happens in between |
| Overlaps.OverlapMovesOpenMarkBack | internal/service/circuitbreaker.go:62-70 | for every threshold, a call admitted early and reported last takes the mark back to its own stamp |
| Overlaps.TrippedDenies | internal/service/circuitbreaker.go:34-50 | a streak that has reached the threshold denies every check exactly until its latest failure is a timeout old |
| Overlaps.PeriodBound | internal/service/circuitbreaker.go:34-70 | however calls to a dead upstream overlap, with at most c of them unreported at any moment, those admitted from one reset up to the next number at most threshold + c - 1 |
| Overlaps.OverlapReachesPeriodBound | internal/service/circuitbreaker.go:34-70 | that bound is reached for every threshold and every c |
| Overlaps.OverlapBreaksDeadBound | internal/service/circuitbreaker.go:34-70 | the run of threshold - 1 calls in turn and then c at once, all admitted and failing at one instant, exceeds the bound for requests one at a time if and only if c is more than one |
| Pacing.ResetAfterLatest | internal/service/circuitbreaker.go:34-50 | the check that closes the breaker comes a timeout or more after the latest report of its streak, and nothing is admitted between the two |
| Pacing.ReportsAreRecent | internal/service/circuitbreaker.go:34-70 | a period's reports are stamped no earlier than the check that began it if calls last less than half a timeout, and at most d earlier otherwise |
| Pacing.ResetsAreApart | internal/service/circuitbreaker.go:34-70 | checks that close the breaker one after the other are a gap apart, the first a timeout after the first call |
| Pacing.AdmissionsByPeriod | internal/service/circuitbreaker.go:34-70 | the calls admitted number at most threshold + c - 1 for every period begun |
| Pacing.OverlapBoundOverTime | internal/service/circuitbreaker.go:34-70 | with at most c calls unreported at any moment, none lasting longer than d < timeout, at most (threshold + c - 1) * (floor((t - first) / gap) + 1) calls reach a dead upstream by time t, the gap being the timeout if 2d < timeout and timeout - d otherwise |
| Pacing.CloseResets | internal/service/circuitbreaker.go:34-70 | for every d from half a timeout on, two checks exactly timeout - d apart can close the breaker one after the other |
| Pacing.NeverDenied | internal/service/circuitbreaker.go:34-70 | failing requests one at a time, admitted a timeout or more apart, are never denied |
| Routing.CircuitKeyInjectiveIff | internal/service/provider/registry.go:287-289 | two provider names never collide on a key if and only if neither is the other continued past a colon |
| Routing.ColonFreeProvidersShareNoKey | internal/service/provider/registry.go:287-289 | with colon-free provider names equal keys mean equal provider and model |
| Routing.ClosedUnderFallback | internal/service/provider/registry.go:191-215 | following links never leaves a list that every link stays inside, cycles included |
| Routing.LinkedListIsChain | internal/service/provider/registry.go:191-215 | a linked list whose last link ends or loops back lists exactly the reachable models |
| Routing.ChainFollowsFallbacks | internal/service/provider/registry.go:191-215 | the chain goes on exactly as the configured fallbacks say, trimmed, until there is none or it is in the chain already |
| Routing.NameSuggestsProvider | internal/service/provider/registry.go:308-318 | names beginning with claude or abab, in any case, suggest Anthropic and MiniMax, all others OpenAI |
| Routing.EnqueueAllExtends | internal/service/provider/registry.go:171-189 | enqueueing keeps what is there, keeps keys distinct, and covers every key of the list |
| Routing.EnqueueModel | internal/service/provider/registry.go:171-189 | the next model's routes, in any order, extend a route queue to one model more |
| Routing.QueueEmptyIffChainEmpty | internal/service/provider/registry.go:171-189 | a queue is empty only for an empty chain: every model contributes a key |
| Routing.QueueKeepsEveryRoute | internal/service/provider/registry.go:171-189 | unless one provider's name is another's continued past a colon, de-duplication drops a route only for one of the same provider and model |
| Routing.ChainOrderOneMore | internal/service/provider/registry.go:171-189 | appending routes of a model that is new to the chain keeps the queue in chain order |
| Routing.ConfigureOneMore | internal/service/provider/registry.go:77-82 | a candidate is filed under its model, and names the fallback only if none is named yet |
| Routing.ConfiguredRoutesAreFiled | internal/service/provider/registry.go:53-84 | configured routes are filed under their own model and carry positive weights |
| Routing.RoutesAreConfigured | internal/service/provider/registry.go:53-84 | a model has one route for every active configuration entry of its name, in that order, with the entry's provider, weight and fallback or their defaults |
| Routing.FallbackIsConfigured | internal/service/provider/registry.go:80-82 | a model falls back to what the first of its active entries says that says anything |
| WeightedOrder.DrawLandsInSlot | internal/service/provider/registry.go:251-275 | a draw below the total always lands in a slot: the fall-through return is never reached |
| WeightedOrder.OwnerIsPicked | internal/service/provider/registry.go:251-275 | the only position whose slot holds the draw is the one picked |
| WeightedOrder.PickedIffOwned | internal/service/provider/registry.go:251-275 | with positive weights a position is picked by exactly its weight's worth of draws |
| WeightedOrder.PickFollowsWeights | internal/service/provider/registry.go:251-275 | with the routes' weights laid end to end, the route picked is the one that the draw falls into |
| WeightedOrder.DrawOrderIsPermutation | internal/service/provider/registry.go:234-249 | every admissible draw vector orders all candidates, each once |
| WeightedOrder.DrawsForExact | internal/service/provider/registry.go:234-275 | the counted set holds exactly the admissible draw vectors that produce the order |
| WeightedOrder.DrawsForSize | internal/service/provider/registry.go:234-275 | it has as many members as the product of the weights along the order |
| WeightedOrder.WeightedOrderLaw | internal/service/provider/registry.go:234-275 | for positive weights every order is produced by exactly as many draw vectors as the product of all weights |
| WeightedOrder.RouteOrderLaw | internal/service/provider/registry.go:234-275 | the law for routes: each order is the outcome of as many draw vectors as the routes' weights multiply to |
| WeightedOrder.Rand | internal/service/provider/registry.go:291-299 | the random source's answer for the bound, and 0, without asking, for bounds of at most one |
| WeightedOrder.WeightedPickIndex | internal/service/provider/registry.go:251-275 | asks the source for a number below the sum of the positive weights, and picks the route whose weight it falls into, the weights laid end to end; the first route if none has weight; its fall-through return is unreachable |
| WeightedOrder.WeightedOrder | internal/service/provider/registry.go:234-249 | the shrinking pool yields a permutation, in the order of the random source's answers, each to the weight of the routes still to be placed |
| Registry.Registry.constructor | internal/service/provider/registry.go:38-87 | files the active models in configuration order, with one fresh breaker per key, none shared |
| Registry.Registry.AddModel | internal/service/provider/registry.go:53-84 | blank or inactive models are skipped, others add one candidate and a new breaker for its key |
| Registry.Registry.EnsureCircuit | internal/service/provider/registry.go:277-285 | returns the key's breaker, creating it if missing, without touching or aliasing any other |
| Registry.Registry.ResolveModelChain | internal/service/provider/registry.go:191-215 | terminates on every fallback map, without repeats, link by link, exactly the reachable models, at most one more than there are fallbacks |
| Registry.Registry.RoutesForModel | internal/service/provider/registry.go:217-232 | never empty: the configured routes, or the one that the model's name suggests |
| Registry.Registry.BuildRouteQueue | internal/service/provider/registry.go:171-189 | distinct keys, models in chain order, each model's routes in a weighted order, non-empty exactly for a non-empty model |
| Registry.ModelsInChainOrder | internal/service/provider/registry.go:171-189 | whatever the providers are called, a queue so built never returns to an earlier model of the chain |
| Registry.QueueStartsWithModel | internal/service/provider/registry.go:171-232 | the first route to be tried is one of the model's own configured ones, or the one that its name suggests |
| Registry.FallbacksAreQueued | internal/service/provider/registry.go:171-215 | every configured route of what a queued model falls back to is queued too, by its provider and model |
| Registry.Registry.EnqueueChain | internal/service/provider/registry.go:177-187 | the outer loop appends model after model along the chain |
| Registry.Registry.EnqueueRoutes | internal/service/provider/registry.go:178-186 | the inner loop appends a model's routes as drawn, except those whose key was seen |
| Registry.Registry.CallRoute | internal/service/provider/registry.go:132-148 | the call carries the route's model; success and non-tripping errors reset the breaker, tripping ones count with the time of the admission check |
| Registry.Registry.CallIfAllowed | internal/service/provider/registry.go:126-148 | denied exactly when the breaker is open at the time read; that same time stamps a failure of the call |
| Registry.Registry.TryRoute | internal/service/provider/registry.go:114-148 | a route without client touches nothing; a denied one changes nothing; a called one changes its own breaker only |
| Registry.Registry.TryNext | internal/service/provider/registry.go:113-153 | the next route of the queue either settles the request, which is then served with that answer, or leaves it in progress |
| Registry.Registry.TryQueue | internal/service/provider/registry.go:111-168 | the failover loop: first success or 400 ends it, all denied gives circuit-open, otherwise the last error; each key at most once; only attempted routes' breakers change; times and results are the clock's and the upstreams' |
| Registry.Registry.Serve | internal/service/provider/registry.go:103-168 | builds the queue of the model and serves along it; the "no route" exit is unreachable |
| Registry.Registry.ChatCompletion | internal/service/provider/registry.go:90-169 | serves along the route queue of the requested model, trimmed, or of gpt-4 if that is blank, with the clock's, the upstreams' and the random source's answers |
| Registry.ProgressOneMore | internal/service/provider/registry.go:113-153 | an attempt sees its breaker as it was before the request, because keys are distinct |
| Registry.SettledIsServed | internal/service/provider/registry.go:135-152 | an attempt that succeeds or fails with 400 ends the request with its answer |
| Registry.ExhaustedIsServed | internal/service/provider/registry.go:155-168 | an exhausted queue answers circuit-open if all were denied, else with the last error, which exists |
| RegistryRuns.TriesUntilSuccessOr400 | internal/service/provider/registry.go:113-153 | routes are tried in queue order up to the first that succeeds or fails with 400, and to the end if none does: every other failure, denial or missing client sends the request on |
| RegistryRuns.FailureNamesLastTried | internal/service/provider/registry.go:115-168 | a failure reports the last route tried, its missing client as 503 or its upstream's error under the route's names; if all were denied, a 503 that names none |
| RegistryRuns.AttemptMovesBreaker | internal/service/provider/registry.go:124-148 | a denial finds the route's breaker open and leaves it so; a call finds it closed or open for its whole timeout, and adds a failure for transport errors, 429, 500, 502, 503 and 504, or clears it |
| RegistryRuns.FirstSuccessAnswers | internal/service/provider/registry.go:113-153 | read off what `TryQueue` ensures: a request succeeds exactly when its last attempt does, and every earlier route lacked a client, was denied, or failed with another status than 400 |
| RegistryRuns.AllDeniedTouchesNothing | internal/service/provider/registry.go:125-160 | read off what `TryQueue` ensures: when all breakers deny, nothing is called, no breaker changes, and 503 is the answer |
| RegistryRuns.HandleAll | internal/service/provider/registry.go:90-169 | a registry that handles requests one after another makes such a run, whose states are those of its breakers |
| RegistryRuns.NewRegistryIsSettled | internal/service/provider/registry.go:38-87 | a new registry starts a run with every breaker closed below its threshold |
| RegistryRuns.RunKeepsSettled | internal/service/provider/registry.go:125-148 | one request at a time keeps every breaker closed below its threshold and open at it |
| RegistryRuns.DeadRouteIsDeadRun | internal/service/provider/registry.go:125-148 | seen through one route's key, a run of the registry is a run of its breaker |
| RegistryRuns.DeadRouteBound | internal/service/provider/registry.go:125-148 | one request at a time and a clock that does not run backwards: at most threshold * (floor((t - first) / timeout) + 1) calls reach a dead upstream |
| TokenBucket.RateLimiter.constructor | internal/middleware/ratelimit.go:30-37 | starts full, with the given rate and burst |
| TokenBucket.RateLimiter.Allow | internal/middleware/ratelimit.go:40-57 | admits exactly when the call conforms: within burst + rate * elapsed since every earlier call and since creation |
| TokenBucket.LeastAfterTime | internal/middleware/ratelimit.go:44-46 | refilling keeps the tokens the least of all window allowances |
| TokenBucket.LeastAfterCall | internal/middleware/ratelimit.go:47-56 | capping and spending keep them the least, and the least decides admission |
| TokenBucket.WindowBound | internal/middleware/ratelimit.go:40-57 | no window admits more than burst + rate * its length |
| TokenBucket.EarnedPerSecond | internal/middleware/ratelimit.go:44-46 | n seconds earn n times the rate |
| TokenBucket.ConformsIff | internal/middleware/ratelimit.go:40-57 | conformance in whole numbers: in every window that ends with the call, the calls beyond the burst times 1,000,000,000 are at most the rate times the nanoseconds |
| TokenBucket.SecondsBound | internal/middleware/ratelimit.go:40-57 | in any n seconds at most burst + n * qps calls are admitted, and in any shorter time the share of it |
| TokenBucket.NoScheduleIsAhead | internal/middleware/ratelimit.go:40-57 | no other conforming way of admitting the same calls is ever ahead: nothing is wasted |
| TwoTier.RateLimit.constructor | internal/middleware/ratelimit.go:94-102 | one bucket per model with a positive limit, whose rate is its burst, and one global bucket, none shared |
| TwoTier.RateLimit.CheckModel | internal/middleware/ratelimit.go:110-116 | an unlimited model passes; a limited one passes exactly when it conforms to its own bucket, and only that bucket changes |
| TwoTier.RateLimit.CheckGlobal | internal/middleware/ratelimit.go:118-124 | passes exactly when the request conforms to the global bucket, and only that bucket changes |
| TwoTier.RateLimit.Handle | internal/middleware/ratelimit.go:105-127 | a blank model is "default"; the request passes its model's tier and then the global one exactly when it conforms there at the times read; a refusal by the model ends it before the global tier |
| TwoTier.RequestTouchesOwnBuckets | internal/middleware/ratelimit.go:105-127 | a request leaves other models' buckets alone, and the global one too if its own model refuses |
| TwoTier.GrantsAreAccountedFor | internal/middleware/ratelimit.go:105-127 | under every interleaving a model's grants are its forwarded and globally refused requests and those between the tiers |
| TwoTier.GlobalGrantsAreForwarded | internal/middleware/ratelimit.go:118-126 | the global bucket's grants are exactly the forwarded requests |
| TwoTier.ForwardedWithinModelLimit | internal/middleware/ratelimit.go:105-127 | forwarded requests of a limited model stay within its bucket's bound over every window, plus those already between the tiers |
| TwoTier.ForwardedWithinGlobalLimit | internal/middleware/ratelimit.go:105-127 | all forwarded requests together stay within the global bound over every window |
| FixedWindow.RedisRateLimiter.Incr | internal/middleware/ratelimit.go:81-84 | the counter continues a live key or starts a new one at 1 without expiry; its client then owes an Expire |
| FixedWindow.RedisRateLimiter.Expire | internal/middleware/ratelimit.go:86-88 | sets the expiry one window ahead, at any later time, between steps of other clients |
| FixedWindow.RedisRateLimiter.Stop | internal/middleware/ratelimit.go:86-88 | a client may stop before its Expire, and the invariant holds on |
| FixedWindow.RedisRateLimiter.Allow | internal/middleware/ratelimit.go:78-91 | granted if and only if the count, continued from a live key or begun at 1, is within the limit; one increment, and an expiry for a key it created |
| FixedWindow.LifetimeBound | internal/middleware/ratelimit.go:78-91 | one lifetime of the key grants at most the limit |
| FixedWindow.WindowBound | internal/middleware/ratelimit.go:78-91 | a half-open interval no longer than the window grants at most 2 * limit - 1 |
| FixedWindow.ReachWindowBound | internal/middleware/ratelimit.go:78-91 | a run of the limiter that reaches this bound, for every limit of at least one and every window of at least two clock ticks |
| Vectors.CauchySchwarz | internal/service/cache/l2.go:250-267 | the squared dot product is at most the product of the squared norms, in every dimension |
| Vectors.CosineIsBounded | internal/service/cache/l2.go:250-267 | similarity lies between -1 and 1 |
| Vectors.CosineOfSelf | internal/service/cache/l2.go:250-267 | a non-zero vector has similarity exactly 1 with itself |
| Vectors.CosineIsShareOfNorms | internal/service/cache/l2.go:250-267 | similarity has the dot product's sign, and its square times both squared norms is the dot product's square |
| Vectors.CosineOfAxes | internal/service/cache/l2.go:250-267 | different axes have similarity 0 |
| Vectors.DotWithAxis | internal/service/cache/l2.go:250-267 | the dot product with an axis is the component along it |
| Vectors.CosineSimilarity | internal/service/cache/l2.go:250-267 | the accumulator loop computes the similarity; other dimensions and zero vectors give 0 |
| Vectors.NormalizeVector | internal/service/cache/l2.go:291-308 | divides by the norm, and returns the zero vector as it is |
| Vectors.NormalizedHasUnitLength | internal/service/cache/l2.go:291-308 | a normalised non-zero vector has length one |
| Vectors.NormalizingKeepsSimilarity | internal/service/cache/l2.go:291-308 | normalising changes no similarity |
| CacheTypes.ResponseRoundTrip | internal/service/cache/l1.go:208-217 | decoding an encoded response yields the response |
| CacheTypes.FieldsAreEncoded | internal/service/cache/l1.go:184-205 | the names and types of a response's JSON fields |
| CacheTypes.InnerFieldsAreEncoded | internal/service/cache/l1.go:193-205 | and of its choices', messages' and usage's; an empty name is left out |
| CacheTypes.DecodingDefaults | internal/service/cache/l1.go:212-217 | missing and null fields leave zero values, values of a wrong type are errors |
| L1Cache.L1Cache.Get | internal/service/cache/l1.go:68-82 | a miss, or the latest value set for the key and not deleted or cleared since |
| L1Cache.L1Cache.Set | internal/service/cache/l1.go:85-100 | holds the new value, alters no other, loses none while there is room and max(1, n/10) when there is not, and stays within the size if it was |
| L1Cache.L1Cache.Write | internal/service/cache/l1.go:93-93 | the write itself, which does not look at the size |
| L1Cache.L1Cache.Delete | internal/service/cache/l1.go:103-108 | removes exactly that key |
| L1Cache.L1Cache.Clear | internal/service/cache/l1.go:111-116 | removes everything |
| L1Cache.L1Cache.EvictIfNeeded | internal/service/cache/l1.go:119-149 | a full cache loses exactly one entry below ten, a tenth of them rounded down from ten on, and alters none of the others |
| L1Cache.OverlappingSets | internal/service/cache/l1.go:85-100 | n writers that all check the size of an empty cache before any of them writes make it hold n entries, whatever its limit |
| L2Cache.SortByCreation | internal/service/cache/l2.go:203-206 | a permutation in order of creation, ties in any way |
| L2Cache.OldestPrefixIsEviction | internal/service/cache/l2.go:203-219 | the oldest max(1, n/10) entries are none newer than any that stays |
| L2Cache.L2Cache.Search | internal/service/cache/l2.go:62-113 | nothing if and only if no entry of the model reaches the threshold, else one of maximal similarity |
| L2Cache.L2Cache.Store | internal/service/cache/l2.go:116-140 | makes room if full and stores the entry; panics if and only if the cache is full and none of the listed entries answers when it is read |
| L2Cache.L2Cache.ReadStamps | internal/service/cache/l2.go:187-201 | collects every listed entry that answers and can be decoded, once, with its creation time |
| L2Cache.L2Cache.EvictIfNeeded | internal/service/cache/l2.go:169-223 | removes exactly max(1, n/10) of the n entries read, oldest first; panics exactly if a full cache has none to read |
| L2Cache.StoreKeepsSize | internal/service/cache/l2.go:116-140 | a cache within its size stays within it, whichever entries answer; so both caches are within theirs over all runs from empty |
| L2Cache.SearchAfterStoreHits | internal/service/cache/l2.go:62-140 | searching what was just stored hits if and only if the threshold is at most 1, with similarity exactly 1 |
| ChatTypes.CachedResponseRoundTrip | internal/handler/chat.go:582-636 | into the cache's format, through JSON and back, a response is unaltered |
| ChatTypes.SameKeySameRequest | internal/service/cache/l1.go:40-58 | requests with the same key differ at most in streaming |
| ChatTypes.KeyIgnoresStreaming | internal/service/cache/l1.go:40-58 | and streaming makes no difference to the key |
| ChatTypes.ToProviderRequest | internal/handler/chat.go:442-461 | the conversion keeps every field and message |
| ChatTypes.ToHandlerResponse | internal/handler/chat.go:463-489 | the conversion keeps every field and choice |
| ChatTypes.ToCacheMessages | internal/handler/chat.go:570-580 | the conversion that feeds the cache key keeps every message |
| ChatTypes.ToCacheResponse | internal/handler/chat.go:582-608 | the conversion keeps every field and choice |
| ChatTypes.ToChatResponse | internal/handler/chat.go:610-636 | the conversion keeps every field and choice |
| ChatHandler.ApplyWorkflowRoutePolicy | internal/handler/chat.go:290-312 | the model becomes the non-blank policy of the phase, if it is one of the three, and nothing else changes |
| ChatHandler.ValidateChatRequest | internal/handler/chat.go:356-389 | accepts exactly the requests whose every field is in range |
| ChatHandler.L1WriteIsProven | internal/handler/chat.go:226-231 | writing what a call on record returned, with or without making room, keeps the provenance of every entry |
| ChatHandler.L2WriteIsProven | internal/handler/chat.go:240-244 | so does a store into the semantic cache |
| ChatHandler.L1HitIsServed | internal/handler/chat.go:139-156 | an exact hit decodes to the response of the call that wrote it |
| ChatHandler.L2HitIsServed | internal/handler/chat.go:169-190 | a semantic hit decodes to the response of a call for the same model |
| ChatHandler.HeldResponseIsUnique | internal/handler/chat.go:139-156 | a hash holds at most one response for a request |
| ChatHandler.TakeStep | internal/handler/chat.go:134-251 | one lookup, call, store or expiry, in any state between steps, keeps provenance and both sizes; a lookup finds something exactly when the state holds it, and then what a call on record returned; what a step leaves behind is stated for each kind |
| ChatHandler.RunRecordsCalls | internal/handler/chat.go:201-251 | in a run of steps exactly the calls among them join those on record |
| ChatHandler.Interleave | internal/handler/chat.go:134-251 | whatever the order of the steps of whatever requests, all entries stay proven, both caches within their sizes, every lookup that finds something finds what a call before it returned, for the same key or for the same model, and every step does what the state before it decides |
| ChatHandler.AskAgain | internal/handler/chat.go:134-251 | of two equal requests in a row the second gets the first one's response from the exact cache, if the first was answered from there, by a provider, or only its delivery was cut off by the panic |
| ChatHandler.ChatHandler.LookupL1 | internal/handler/chat.go:136-161 | answers exactly when the exact cache is in use and holds the key |
| ChatHandler.ChatHandler.LookupL2 | internal/handler/chat.go:163-199 | where the semantic cache is in use, the vector is what the worker, if it is up, gives for the messages; with one, it finds nothing exactly when nothing for the model reaches the threshold, else a most similar entry |
| ChatHandler.ChatHandler.StoreL1 | internal/handler/chat.go:226-231 | writes the encoded response under the request's key; other entries only make room |
| ChatHandler.ChatHandler.VectorFor | internal/handler/chat.go:233-238 | the lookup's vector, or else what the worker, if it is up by then, gives for the messages |
| ChatHandler.ChatHandler.StoreL2 | internal/handler/chat.go:233-245 | panics if and only if the cache is full, there is a vector, and none of its entries answers when it is read; otherwise stores the response with that vector and the time of the store |
| ChatHandler.ChatHandler.StoreEntry | internal/handler/chat.go:240-244 | the store itself, with provenance and size kept |
| ChatHandler.ChatHandler.RecordCall | internal/handler/chat.go:201-210 | a successful call goes on record, which proves no less than before |
| ChatHandler.ChatHandler.StoreResponse | internal/handler/chat.go:226-245 | one more call is on record, held by both caches where they are in use; a panic takes a full semantic cache, leaves that as it was, and comes after the exact cache is written |
| ChatHandler.ChatHandler.CallRegistry | internal/handler/chat.go:391-403 | the registry served the converted request, and the reply carries its answer |
| ChatHandler.ChatHandler.ConvertAnswer | internal/handler/chat.go:391-403 | the answer converted, breakers untouched |
| ChatHandler.ChatHandler.Deliver | internal/handler/chat.go:204-251 | a failure is passed on and leaves the caches alone; a success is kept first, and delivered unless that panics |
| ChatHandler.ChatHandler.ForwardToProvider | internal/handler/chat.go:201-245 | a failure leaves both caches unchanged, a success is recorded and held |
| ChatHandler.ChatHandler.LookupCaches | internal/handler/chat.go:134-199 | the exact cache answers exactly when it is in use and holds the key; the semantic one only after it, with a most similar entry; else nothing in either qualified |
| ChatHandler.ChatHandler.ServeRequest | internal/handler/chat.go:134-251 | hits make no provider call and change nothing; the semantic cache is searched with the worker's vector whenever there is one; the provider is asked only when both caches have nothing, its first route being one of the requested model |
| ChatHandler.ChatHandler.ChatCompletion | internal/handler/chat.go:117-252 | the whole pipeline, uninterrupted: a valid request is answered as specified, with provenance and sizes kept; an invalid one changes nothing |
| ChatHandler.ChatHandler.Expire | internal/service/cache/l1.go:95-97 | entries running out of time keep provenance and sizes |
| Traces.NormalizeTraceIdempotent | internal/service/workflow.go:284-355 | recording a recorded trace again leaves it as it is, cost estimate included |
| Traces.NormalFormIs | internal/service/workflow.go:284-325 | what each field of a logged trace is: the received one's, trimmed, 200 for a missing status, the sum for a missing total, nothing for negatives, the price for a missing cost |
| Traces.EstimateIsPrice | internal/service/workflow.go:327-355 | the price in billionths of a dollar per token: 30000 and 60000 for gpt-4, 1500 and 2000 for gpt-3.5, 8000 and 24000 for claude, 2000 otherwise and where only a total is known |
| Traces.TallyOfPermutation | internal/service/workflow.go:207-282 | counts, errors, tokens, cost and latency do not depend on the order of the traces |
| Traces.GroupsAddUp | internal/service/workflow.go:248-281 | groups that catch every grouped trace add up exactly to all of them |
| Traces.EveryTraceHasPhase | internal/service/workflow.go:248-251 | the phases of a session cover all its traces |
| Sessions.AddKeepsAgreement | internal/service/workflow.go:231-281 | counting one more trace keeps the session equal to the batch, groups and mirrored counters included |
| Sessions.OtherSessionKeepsAgreement | internal/service/workflow.go:207-229 | traces of other sessions do not concern a session |
| Sessions.AddTraceKeepsViewsAgreeing | internal/service/workflow.go:207-282 | the sessions on record stay exactly those that traces name, each equal to its batch |
| Sessions.AddTraceGrows | internal/service/workflow.go:207-325 | a received trace adds to its own session, and there to its phase and its tool, exactly one request and its own error, tokens, cost, latency and cache hit; every other session stays as it was |
| Sessions.AddAllAgrees | internal/service/workflow.go:207-282 | folding any sequence of traces from nothing gives the batch |
| Sessions.SummaryIsConserved | internal/service/workflow.go:231-281 | phases sum exactly to the session's totals, mirrored counters match, and average times requests is total latency |
| Sessions.ToolsStayWithinTotals | internal/service/workflow.go:266-281 | tools never add up to more than the session's totals |
| Sessions.OrderDoesNotMatter | internal/service/workflow.go:207-282 | the same traces in another order give the same summary, last timestamp excepted |
| Sessions.ReplayRebuildsViews | internal/service/workflow.go:124-130 | a log with the traces that were applied, recorded again, rebuilds every session, its last timestamp if and only if the latest trace of the session is stamped alike in both orders |
| Sessions.OneAtATimeSameStamp | internal/service/workflow.go:124-130 | if records of a session do not overlap, its latest trace in the log is the latest applied |
| WorkflowTracer.SummaryState.UpdateTotals | internal/service/workflow.go:231-246 | counts a trace into the totals and leaves both tables alone |
| WorkflowTracer.SummaryState.UpdatePhase | internal/service/workflow.go:248-264 | counts a trace into its phase, "default" if blank, and nothing else |
| WorkflowTracer.SummaryState.UpdateTool | internal/service/workflow.go:266-281 | counts a trace into its tool, if it names one, and nothing else |
| WorkflowTracer.SummaryState.Update | internal/service/workflow.go:231-281 | the state in place follows the fold over values |
| WorkflowTracer.CloneWorkflowSummary | internal/service/workflow.go:365-376 | the same contents in tables of its own |
| WorkflowTracer.WorkflowTracer.AppendJSONL | internal/service/workflow.go:177-205 | the log grows by the trace, which is then pending |
| WorkflowTracer.WorkflowTracer.UpdateSummary | internal/service/workflow.go:207-282 | a pending trace is applied, in whatever order, and all sessions still equal the batch |
| WorkflowTracer.WorkflowTracer.EnsureSession | internal/service/workflow.go:215-229 | a missing session starts empty with tables of its own; the others stay as they are |
| WorkflowTracer.WorkflowTracer.CountIntoSession | internal/service/workflow.go:231-281 | only the one session's state and tables change |
| WorkflowTracer.WorkflowTracer.Record | internal/service/workflow.go:124-130 | the received trace is logged in its normal form, and its own session, phase and tool grow by its own values, the fill-ins included |
| WorkflowTracer.WorkflowTracer.GetSummary | internal/service/workflow.go:133-148 | a copy of the session's summary, in tables that the tracer will never touch |
| WorkflowTracer.HandedOutSummaryStays | internal/service/workflow.go:133-148 | a summary handed out keeps showing the session as it was, whatever is recorded later |
| WorkflowTracer.ReplayAgreesWithMemory | internal/service/workflow.go:124-130 | once all logged traces are applied, for every interleaving of appends and updates, replaying the file rebuilds every session, exactly if and only if its latest trace is stamped alike in the file and in the order of application |
| WorkflowTracer.ReplayIsExactWithoutOverlap | internal/service/workflow.go:124-130 | a session whose records never overlapped is replayed exactly, whatever other sessions did |
| WorkflowTracer.RecordOverlapping | internal/service/workflow.go:124-130 | a run of the tracer in which two records of one session are appended in one order and applied in the other |
| WorkflowTracer.OverlapReplaysLaterStamp | internal/service/workflow.go:246-246 | after that run the session's last timestamp is the first trace's, while replay gives the second's |
| WorkflowTracer.RecordAll | internal/service/workflow.go:124-130 | records one after the other are logged in order of arrival, in normal form, leave nothing more pending and bring about no overlap |
| WorkflowTracer.ReplayedInTurn | internal/service/workflow.go:124-130 | what a new tracer records one after the other, replaying its log rebuilds exactly, every session of it |
| UsageStats.Milliseconds | internal/service/stats.go:93-93 | whole milliseconds, truncated toward zero on both sides |
| UsageStats.MovedMeanIsExact | internal/service/stats.go:94-98 | moving the mean of n values by one more gives the mean of n + 1 |
| UsageStats.AddEventIsExact | internal/service/stats.go:85-100 | one more event keeps a model's usage equal to its batch |
| UsageStats.AddToUsagesKeepsAgreement | internal/service/stats.go:74-100 | the models on record stay those of the history, each equal to its batch |
| UsageStats.AddToUsagesGrows | internal/service/stats.go:74-101 | a metric adds a request to its own model, or to "unknown", with its error, positive tokens and latency, and leaves the other models alone |
| UsageStats.ModelUsage.Record | internal/service/stats.go:85-100 | the entry in place follows the step over values |
| UsageStats.UsageStats.Record | internal/service/stats.go:62-101 | totals and its own model's entry grow by the metric's own values, and all equal the batch over the longer history |
| UsageStats.UsageStats.Snapshot | internal/service/stats.go:104-125 | copies equal to the batch over the history, with the exact cache hit rate |
| UsageStats.ModelsAddUpToTotals | internal/service/stats.go:62-125 | requests and positive tokens of the models sum exactly to the totals |
| RetryLoop.FinalIff | internal/service/embeddingworker/client.go:85-98 | an exchange is not retried exactly if the worker answered with a readable delivery or with a status that is not transient |
| RetryLoop.DoubledIsWait | internal/service/embeddingworker/client.go:189-192 | doubling and capping step by step reaches the closed form min(b * 2^i, 2s) |
| RetryLoop.WaitsDouble | internal/service/embeddingworker/client.go:189-192 | each wait doubles the one before it, up to two seconds |
| RetryLoop.TotalWaitIsBounded | internal/service/embeddingworker/client.go:178-192 | n waits take at most the base and n - 1 caps |
| RetryLoop.Client.constructor | internal/service/embeddingworker/client.go:101-126 | non-positive settings become the defaults; at least one try, always |
| RetryLoop.Client.GenerateOnce | internal/service/embeddingworker/client.go:198-254 | delivers only what came with status 200; which status and cause each kind of failure gets; a request that cannot be encoded is retried although its error carries status 400 |
| RetryLoop.Client.Generate | internal/service/embeddingworker/client.go:154-196 | at most retryMax calls, ending with the first final one, each answered as the world has it; exactly one of response and error; waits on schedule, cut short only when the caller gives up, at most b + (retryMax - 2) * 2s in all |
| RetryLoop.Client.Retry | internal/service/embeddingworker/client.go:166-195 | the loop over attempts: ends with the first conclusive exchange, the last try or a cancelled wait, having waited on schedule |
| RetryLoop.Client.Healthy | internal/service/embeddingworker/client.go:129-151 | with no other caller in between: answers with a probe younger than the lifetime, making one only if there is none |
| RetryLoop.Client.ProbeHealth | internal/service/embeddingworker/client.go:256-273 | up if and only if one of the two routes answers with less than 500 |
| RetryLoop.Client.EnterHealthy | internal/service/embeddingworker/client.go:134-134 | the first step, before any lock: the caller's clock reading, by which it judges the cache and dates its probe |
| RetryLoop.Client.ReadHealth | internal/service/embeddingworker/client.go:136-143 | the step under the read lock, any time later: the cached answer exactly while it is young enough for the caller's clock reading, else a probe begins |
| RetryLoop.Client.StoreHealth | internal/service/embeddingworker/client.go:145-150 | the step under the write lock, any time later: the probe's finding replaces whatever the cache holds by then |
| HealthLog.SpacedWithoutOverlap | internal/service/embeddingworker/client.go:129-151 | without overlap probes begin at least a lifetime apart |
| HealthLog.ProbesAreRare | internal/service/embeddingworker/client.go:129-151 | and probes i to j span at least j - i lifetimes |
| HealthLog.EnteringKeepsRoom | internal/service/embeddingworker/client.go:134-134 | a caller that enters in the interval changes nothing about what is left |
| HealthLog.AnsweringKeepsRoom | internal/service/embeddingworker/client.go:136-143 | a caller that leaves with the cached answer makes no more room |
| HealthLog.StartingUsesRoom | internal/service/embeddingworker/client.go:141-145 | a probe begins in an interval of one lifetime only while the cache holds nothing of that interval |
| HealthLog.StoringKeepsRoom | internal/service/embeddingworker/client.go:146-149 | storing an older probe can make the cache look out of date again, but never makes room for more than was counted |
| HealthLog.CrowdBound | internal/service/embeddingworker/client.go:129-151 | when callers overlap, with at most c of them inside at any moment, no interval of one lifetime sees more than 1 + 2 + ... + c probes by callers that entered in it |
| HealthLog.CrowdBoundIsReached | internal/service/embeddingworker/client.go:129-151 | that bound is reached for every c, by callers that enter at one and the same moment |

## Left out

- HTTP transport, request and response bodies, gin, SSE framing and its chunking: library behaviour or one-line loops.
- Provider clients, authentication, configuration loading, logging, telemetry, load tests, PostgreSQL and the admin handlers.
- `mapUpstreamError`, the error constructors and the texts of validation errors: one-branch lookups.
- The chat handler's own metrics and trace recording, which read its status variables after the reply.
- Floating-point rounding and integer overflow: `float64` is `real`, `int64` is `int`.
- ToLower lower-cases ASCII letters only; TrimSpace strips the Unicode white space.
- Nil and empty stop lists, which encode differently into the cache key, are one list here.
- The semantic prompt: the embedding vector of a request is whatever the worker answers.
- The semantic cache's `Delete`, `Clear` and `Stats` and the exact cache's `Stats`: easy members over the same map.
- Failures of Redis commands other than a lost answer to Incr, and glob characters in key namespaces.
- FixedWindow.RedisRateLimiter.Expire: sets the expiry exactly one window ahead; windows that are not whole seconds,
  which go-redis rounds, are not modelled.
- Unsynchronised access to the registry's circuits map, and evictions racing across requests or gateway instances:
  provenance does not depend on them, since eviction only removes entries; sizes do (`L1Cache.OverlappingSets`).
- ChatHandler.ChatHandler.ChatCompletion: is for a request whose steps follow each other; what holds between the steps
  of any requests is `ChatHandler.Interleave`.
- L2Cache.L2Cache.Search: reads the store in one step; an entry that lapses while it reads counts as lapsed before.
- L2Cache.L2Cache.Store: an entry that did not answer during eviction leaves the store in a step of its own (`Lapse`).
- RegistryRuns.DeadRouteBound: is for requests handled one at a time; `Overlaps.OverlapBreaksDeadBound` shows why, and
  `Overlaps.PeriodBound` and `Pacing.OverlapBoundOverTime` are what hold instead.
- Pacing.OverlapBoundOverTime: is for calls shorter than the timeout; `Pacing.NeverDenied` shows why.
- Failed appends to the replay log, and its JSON lines: the log is the sequence of the traces appended.
- `ListSummaries`: sorts copies that are modelled by `GetSummary`.
- RetryLoop.Client.Generate: a nil client is the unconfigured one; of a cancelled wait only the beginning is modelled.
- UsageStats.UsageStats.Snapshot: returns a value, so that later records cannot affect it needs no proof.
