# Verified model of the inference runtime

A Dafny model of the parts of the repository where a mistake would be hardest to see: the bounded
inference queue, the router with its circuit breaker and attempt ledger, the stage-job graph, the recovery
of JSON from model output, and the arithmetic of ranking, quota and percentile reports. `dafny verify
dfyconfig.toml` checks everything.

| file | what it models |
|---|---|
| `LaneProtocol.dfy` | one admission lane as a transition system of submitters, workers and shutdown drains; then all lanes together |
| `LaneShutdown.dfy` | exactly when a shutdown settles every future, with the runs that leave a job behind |
| `LaneOrder.dfy` | the order of a lane's queue entries |
| `LaneCollector.dfy` | the batch collector of a lane, a class over a queue that other threads change while it waits |
| `InferenceTypes.dfy` | requests, the queue's batch key, the router's homogeneity test |
| `CircuitBreaker.dfy` | the breaker class, proved against its log of decisions and records |
| `Ledger.dfy`, `Router.dfy` | the attempt ledger, run-level attribution, `infer` and `infer_batch` |
| `StageGraph.dfy`, `Graphs.dfy` | topological sort, longest weighted chain, failure impact, over a general finite graph |
| `JsonScan.dfy`, `JsonText.dfy`, `JsonClean.dfy` | the brace scanner, a printer of JSON texts, the cleaning pass |
| `DimScores.dfy` | the eight scores: schema path, manual path, and the report of missing and unreadable dimensions |
| `Ranking.dfy`, `Composite.dfy` | NDCG, average precision, the composite score |
| `ScopeQuota.dfy`, `Percentile.dfy` | the hourly quota window, nearest-rank percentiles |
| `Options.dfy`, `Strings.dfy`, `Reals.dfy` | shared vocabulary |

Things the proofs found out about the code:

* A lane's permits are conserved over every interleaving, but a future is not always set before its permit is
  released: a submitter that sees the stop flag releases first (inference/queue.py:592-603). That is the only
  exception, and `ReleasedBeforeSettledExactlyWhenBacking` says so.
* Already when a drain starts it is decided whether every future will be set and every permit back at the end,
  whatever the schedule: exactly when no submitter is between its stop check and its put, no worker holds deferred
  jobs, none is filling a batch while jobs are queued, and none is waiting for a job with coalescing on, batches of
  two or more, and two jobs queued. `StrandedBySubmitter` and `StrandedByDeferral` are concrete runs that leave a job
  queued for ever.
* A primary provider that raises never reaches `record_result`; if that call was the half-open probe, no later
  request reaches the primary any more. That is the one way into this state (`ShutForEverExactlyWhenProbeRaises`).
* A batch the queue builds is homogeneous for the router, except when one request omits `num_predict` and another
  spells out the queue's own placeholder `__default__`.
* `infer_batch`'s native path never asks the breaker. It agrees with per-item inference exactly when the breaker
  would have admitted the first request (`OpenBreakerIsBypassed` is a run where it would not).
* `clean_json_response` is idempotent on every text, with or without backticks: a run of k backticks keeps k mod 3.
* NaN is clamped to 10, because Python's `min` keeps its first argument. An integer too large for a float escapes
  `parse_dimensional_response` as an OverflowError before either score path runs.
* Two scopes share a budget exactly when their names agree or one pair is the other with the boundary moved across
  a separator inside the names.
* The hourly quota bound holds for all request costs exactly when no hour recurs after a different one.
* p99 is at most the reported maximum exactly when that maximum is not negative: percentiles clamp samples at 0,
  the maximum does not.

Time is a real that no step decreases. Providers answer any request in any way, and may answer the same question
differently next time; JSON validity, error classification and number parsing are arbitrary functions; thread
schedules are arbitrary interleavings.

## Model

| member | source | states |
|---|---|---|
| LaneProtocol.RunKeepsInv | inference/queue.py:340-374 | every step of submitters, workers and drains keeps the lane invariant, over runs of any length |
| LaneProtocol.StepKeepsInv | inference/queue.py:1142-1188 | one step of any thread keeps the lane invariant |
| LaneProtocol.EffectKeepsBalance | inference/queue.py:580-632 | a step that takes, gives back or settles at most one token keeps every call's balance, and never gives back or settles one twice |
| LaneProtocol.CallMoves | inference/queue.py:580-632 | what a submit call's step does to held permits and owed futures, for every weighting of jobs |
| LaneProtocol.WorkerMoves | inference/queue.py:1142-1188 | the same for a worker: taking, joining, deferring, putting back, finishing, settling, releasing |
| LaneProtocol.DrainerMoves | inference/queue.py:352-374 | the same for a drain |
| LaneProtocol.AdmissionConserved | inference/queue.py:580-632 | free permits, submitters past acquire, queued jobs, worker-held and drain-held jobs always add up to the cap; depth plus active never exceeds it; the semaphore is never over-released |
| LaneProtocol.OneOwner | inference/queue.py:1165-1188 | an admitted job whose future is unset has exactly one owner; its future is set at most once and before its permit is released |
| LaneProtocol.ReleasedBeforeSettledExactlyWhenBacking | inference/queue.py:592-603 | a permit is released before its future is set exactly while a submitter backs out at the stop check |
| LaneProtocol.SetsOnlyPendingFutures | inference/queue.py:361-366 | whenever a worker or drain sets a future it was pending, so the `done()` guards never drop a result |
| LaneProtocol.QuiescentLane | inference/queue.py:340-374 | once all threads are done: no job is queued iff all permits are back iff every future is set |
| LaneProtocol.DrainIsFinalExactlyWhen | inference/queue.py:352-374 | an emptied queue stays empty in every continuation iff no submitter is before its put and no worker holds deferred jobs |
| LaneProtocol.ShutdownSettlesEverything | inference/queue.py:340-374 | when a drain starts with nothing in flight and no worker able to defer a job, every future is set and every permit is back at the end |
| LaneProtocol.DrainedSettlesEverything | inference/queue.py:352-374 | the same from the moment a drain finds the queue empty with nothing in flight |
| LaneProtocol.StrandedBySubmitter | inference/queue.py:592-632 | a reachable final state where a late put leaves a job queued, its future unset and a permit lost |
| LaneProtocol.StrandedByDeferral | inference/queue.py:736-743 | a reachable final state where a put-back after the drain does the same |
| LaneShutdown.DrainSettlesEverythingExactlyWhen | inference/queue.py:352-374 | from an emptied queue: every future is set and every permit back in every final state iff no submitter is before its put and no worker holds deferred jobs |
| LaneShutdown.ShutdownSettlesEverythingExactlyWhen | inference/queue.py:340-374 | from the start of a drain, coalescing on or off: the same iff nothing is in flight and no worker may still defer a job |
| LaneShutdown.WithoutCoalescingExactlyWhen | inference/queue.py:340-374 | with coalescing off, that comes down to no submitter being between its stop check and its put |
| LaneShutdown.StrandingRun | inference/queue.py:592-632 | whenever something is in flight over an emptied queue, some schedule ends with all threads done and a job still queued |
| LaneShutdown.WorkerFinishes | inference/queue.py:1142-1188 | once stopped, a worker alone can always run to its exit, putting back exactly what it holds deferred |
| LaneProtocol.PoolAdmission | inference/queue.py:340-360 | over every interleaving of all lanes, total depth plus active stays within the sum of the caps |
| InferenceTypes.QueueBatchIsHomogeneous | inference/queue.py:699-706 | requests that share the queue's batch key pass the router's checks iff nobody uses the placeholder as a value |
| InferenceTypes.PlaceholderClashExample | inference/queue.py:699-706 | two requests with one key that the router refuses to batch |
| LaneCollector.LaneRuntime.CollectJobs | inference/queue.py:711-743 | the head is the least by (priority, seq) of exactly what the queue held before plus what was put while waiting, less what other workers took in that wait; the batch is empty only after the whole wait on an empty queue, a single job when the head is overdue, short of the maximum only once the window has passed, of the head's key throughout; nothing lost, deferred entries unchanged |
| LaneCollector.LaneRuntime.Coalesce | inference/queue.py:721-740 | the coalescing loop: who joins, who is deferred, conservation, and termination against unbounded interference because the clock passes the deadline |
| LaneCollector.SteadyClockAdvances | inference/queue.py:721-740 | a clock that moves by some least amount per get outlasts every window |
| LaneCollector.LaneRuntime.Get | inference/queue.py:713-719 | a blocking get returns a least entry, or nothing after the whole timeout |
| LaneCollector.NothingLost | inference/queue.py:711-743 | the multiset balance of one collection |
| LaneCollector.CollectedBatchIsHomogeneous | inference/queue.py:1081-1129 | every collected batch is homogeneous for the router, but for the placeholder clash |
| CircuitBreaker.ProviderCircuitBreaker.BeforeRequest | inference/router.py:52-63 | the decision is the admission rule applied to the log; the three fields stay functions of the log |
| CircuitBreaker.ProviderCircuitBreaker.RecordResult | inference/router.py:65-77 | failures is the trailing run of retryable failures, opened_at the last record's time, the probe flag whether one was admitted since |
| CircuitBreaker.ProviderCircuitBreaker.State | inference/router.py:79-87 | the reported state in terms of the log |
| CircuitBreaker.OneProbePerGap | inference/router.py:52-77 | while open, at most one request is admitted between two consecutive records |
| CircuitBreaker.ProbesAreSpaced | inference/router.py:52-77 | a request admitted while open comes at least the recovery delay after any earlier admitted one |
| CircuitBreaker.OutageLoad | inference/router.py:52-77 | k requests admitted while open span at least (k - 1) recovery delays, over any history |
| CircuitBreaker.ShutForEverExactlyWhen | inference/router.py:52-77 | no later request is ever admitted without a new record iff the breaker is open and has admitted one since its last record |
| CircuitBreaker.LostProbeBlocksForEver | inference/router.py:279-309 | equivalently, iff the log holds a probe that was never followed by a record |
| CircuitBreaker.LostProbeExample | inference/router.py:279-309 | such a log, shut for ever, with a request refused 999 seconds after the probe |
| Ledger.OkStatusCountsAsSuccess | inference/types.py:8-11 | a usable status is what the queue hands on as SUCCESS or DEGRADED, and no other is |
| Ledger.ComputeOutcomeAttribution | inference/ledger.py:156-188 | the scan for the last successful attempt computes the attribution |
| Ledger.AttributionNamesShape | inference/ledger.py:156-188 | attribution names each of the four ledger shapes; never exception or unknown_success |
| Router.InferenceRouter.Infer | inference/router.py:201-403 | for every configuration, breaker log and reply of that moment: the outcome, one of four ledger shapes, usable iff the last attempt is ok, hop latencies summing to the provider latency and within the end-to-end latency, labels, and what the breaker learns |
| Router.InferenceRouter.AskPrimary | inference/router.py:279-403 | the primary hop and the three exits after it |
| Router.InferenceRouter.FallbackAnswer | inference/router.py:332-375 | the fallback hop, as second attempt or with the primary skipped |
| Router.AnswerIsAttributed | inference/queue.py:970-972 | the attribution of any answer names its shape |
| Router.ShutForEverExactlyWhenProbeRaises | inference/router.py:279-309 | one request shuts the breaker for ever iff it was let through the open breaker to the primary and the primary raised |
| Router.InferenceRouter.InferBatch | inference/router.py:409-536 | one response per request in order; the native path or the per-item loop, and when each is taken |
| Router.InferenceRouter.InferEach | inference/router.py:429-437 | per-item inference: every turn decided by the breaker's log so far |
| Router.BatchRefinesSequentialExactlyWhenAdmitted | inference/router.py:409-536 | when the batch returns what each request would get in its own turn: the native batch routes every request as per-item inference would, iff the breaker admits the first |
| Router.BatchAgreesWithEach | inference/router.py:409-536 | then status, text, fallback flag and final model agree item by item |
| Router.OpenBreakerIsBypassed | inference/router.py:409-536 | a log with an open breaker where the native batch answers from the primary and per-item inference from the fallback |
| StageGraph.BuildStageJobGraph | api/infra_routes.py:319-463 | the whole report over a stage group: edges, critical path or cycle, bottleneck, failure impact; the last row of an id wins |
| StageGraph.TopoSort | api/infra_routes.py:373-383 | Kahn's loop lists producers before consumers, and all jobs iff the relation is acyclic, self-loops included |
| StageGraph.SortedExactlyWhenAcyclic | api/infra_routes.py:373-383 | a maximal producers-first list is complete iff there is no cycle |
| StageGraph.Adjacency | api/infra_routes.py:364-371 | in-degrees and neighbour lists are those of the edges, duplicates included |
| StageGraph.CriticalPathOf | api/infra_routes.py:384-422 | a real dependency chain of the group, its weights sum to the total, no chain weighs more |
| StageGraph.LongestInto | api/infra_routes.py:389-398 | best bounds every chain into a job; back-pointers account for it |
| StageGraph.WalkBack | api/infra_routes.py:400-407 | following back-pointers yields that chain; the visited_guard bound never truncates it |
| StageGraph.BottleneckOf | api/infra_routes.py:409-416 | the first heaviest job of the path, and its share |
| StageGraph.Downstream | api/infra_routes.py:298-316 | exactly the other jobs reachable from the failed one, each once, on cyclic groups too |
| StageGraph.FailureImpact | api/infra_routes.py:437-450 | each failed job reported once with exactly what it blocks |
| StageGraph.ImpactFollowsReportedEdges | api/infra_routes.py:298-316 | with unique ids, impact is reachability over the reported edges |
| JsonScan.ExtractFirstJsonObject | inference/parsers.py:226-255 | the loop returns the one string-aware balanced span from the first brace, None iff there is none |
| JsonScan.ExtractIsTheBalancedSpan | inference/parsers.py:226-255 | the same about the scanning function, against an independent grammar of balanced text |
| JsonText.JsonIsBalanced | inference/parsers.py:226-255 | every text printed by sections 2 and 4 to 7 of RFC 8259 is balanced in that grammar |
| JsonText.ExtractInvertsPrint | inference/parsers.py:226-255 | for any printed object, brace-free prefix and suffix, extraction returns exactly the object |
| JsonClean.CleanIsIdempotent | inference/parsers.py:258-273 | cleaning twice is cleaning once, on every text and for every notion of validity |
| JsonClean.RemovalLeavesNoFence | inference/parsers.py:258-273 | fence removal leaves no fence, even one made of the pieces |
| JsonClean.CleanRecoversObject | inference/parsers.py:258-273 | a backtick-free printed object after brace-free prose comes back exactly, unless the whole unfenced text is valid |
| JsonClean.CleanOpensFence | inference/parsers.py:258-273 | a printed object in a json fence is recovered whatever counts as valid |
| DimScores.InspectRawDims | inference/parsers.py:30-48 | the present, missing and coerced lists, each in key order; all missing when the answer is no object; when an overflow escapes |
| DimScores.AcceptNested | inference/schemas.py:322-346 | nested scores are copied up only where the top level has none, and every other key stays as it was |
| DimScores.SchemaDims | inference/schemas.py:358-366 | the schema path computes the specified eight scores |
| DimScores.ManualDims | inference/parsers.py:496-508 | the manual path computes the same eight scores |
| DimScores.ScoresFollowReport | inference/parsers.py:30-48 | scores lie in [0, 10]; a score is the clamped model number exactly when its key is in neither list, else 5.0 |
| DimScores.ClampRange | inference/schemas.py:42-55 | clamping lands in [0, 10], keeps numbers already there, and sends NaN to 10 |
| DimScores.ParseDimensionalResponse | inference/parsers.py:435-554 | when an answer's own scores are used, when recovery or nothing is; a scorecard of defaults is never made up |
| DimScores.HugeIntegerEscapes | inference/parsers.py:435-554 | one huge integer as a score makes the overflow escape |
| Ranking.Evaluate | agent_eval/metrics.py:80-121 | NDCG in [0, 1], 1 iff the ranking is ideal, absent iff the ideal is worthless; average precision in [0, 1], 1 iff the leading results are all hits |
| Ranking.NdcgInUnitInterval | agent_eval/metrics.py:94-101 | the NDCG part, for every positive decreasing discount and non-negative relevance |
| Ranking.RankingBelowIdeal | agent_eval/metrics.py:94-101 | no ranking of distinct images out-gains the ideal order in any prefix |
| Ranking.DiscountedBelow | agent_eval/metrics.py:99-101 | prefix dominance carries over to discounted sums, with equality iff the lists agree |
| Ranking.SortDownPermutes | agent_eval/metrics.py:100 | the ideal order is a permutation of the gains |
| Ranking.AveragePrecision | agent_eval/metrics.py:102-109 | in [0, 1], and 1 iff the first min(relevant, max(1, k)) results all exist and are relevant |
| Ranking.PrecisionSum | agent_eval/metrics.py:102-107 | the accumulator is at most the hits, and equals them iff the hits lead |
| Composite.FourDecimalWeightsAreCloseEnough | agent_eval/metrics.py:571-586 | rounded weights sum to 1 within 0.0002; the score is within 0.02 of the exact weighted mean |
| ScopeQuota.ScopeQuotaTable.Admit | infra/scope_quota.py:89-167 | admitted iff within budget; only this scope's row changes, to the request's hour; never above the limit |
| ScopeQuota.ScopeQuotaTable.Snapshot | infra/scope_quota.py:47-86 | remaining is exactly what the next request in that hour may cost |
| ScopeQuota.RowCountsItsHour | infra/scope_quota.py:118-161 | while hours never return: the stored count is what its hour admitted, at most the limit |
| ScopeQuota.RefusedExactlyWhenOverBudget | infra/scope_quota.py:139-149 | a request is refused iff its hour has admitted too much for it |
| ScopeQuota.AnySpanAdmitsTwiceTheLimit | infra/scope_quota.py:89-167 | any 3600 seconds admit at most twice the limit |
| ScopeQuota.TwiceTheLimitIsReached | infra/scope_quota.py:89-167 | that bound is tight |
| ScopeQuota.BudgetHoldsExactlyWhenHoursNeverReturn | infra/scope_quota.py:118-141 | the hourly bound holds for all costs iff no hour recurs after a different one |
| ScopeQuota.OrderedHoursKeepBudget | infra/scope_quota.py:118-141 | hours that never decrease in commit order are enough |
| ScopeQuota.KeysCollideExactlyWhen | infra/scope_quota.py:28-31 | two scopes share a key iff their names agree or one pair is the other with a separator's place moved |
| ScopeQuota.KeysOfDistinctScopesDiffer | infra/scope_quota.py:28-31 | so scopes whose namespaces hold no separator share a key iff their names agree |
| ScopeQuota.SeparatorInNameMergesScopes | infra/scope_quota.py:28-31 | without that, two scopes can share a budget |
| Percentile.NearestRankIsLeastCover | infra/metrics.py:289-296 | for p in (0, 1], the least value with at least ceil(p n) samples at or below it |
| Percentile.NearestRankMonotone | infra/metrics.py:289-296 | monotone in p |
| Percentile.CollectLatencies | infra/metrics.py:519-536 | p50 <= p95 <= p99, and p99 is at most the maximum iff the maximum is not negative |
| Percentile.SortingKeepsCounts | infra/metrics.py:292 | sorting keeps how many samples lie at or below any value |

## Left out

- Client cancellation of futures, and `done` events: a future is only ever set by the queue.
- Liveness: that workers keep running and that a drain is scheduled; the lane results are safety over every run.
- Lane choice, lane size coercion, metrics publishing, logging, periodic snapshots, run rows in SQLite.
- Router.InferenceRouter.Infer: one request at a time; threads sharing a breaker interleave only between calls of its two locked methods, which the breaker's log theorems cover; the backends' names, models and batch support are fixed, only their replies vary.
- The ledger is a value, so aliasing between a response's metadata and the router's dictionary is not captured.
- LaneCollector.LaneRuntime.Coalesce: that the clock advances while the loop waits is assumed (ClockAdvances), as the source assumes it.
- LaneCollector.LaneRuntime.PutBackAll: other threads do not step between its individual puts; LaneProtocol covers those interleavings.
- StageGraph.AnyOrder: set iteration order is arbitrary; dictionary order is not modelled.
- Ledger endpoints and error messages, and circuit_state, which no routing decision reads.
- Error classification (`classify_inference_error`) is an arbitrary function; the fallback semaphore and HTTP are not modelled.
- The per-provider metadata besides num_predict and provider, and RoundRobinInferenceRouter, which adds an index only.
- Status words and case folding are ASCII apart from white space.
- Float rounding of latencies, gains, discounts and p times n: exact reals; `round(x, 4)` of the reported ranking metrics.
- precision_at_k, recall_at_k and reciprocal_rank: true but easy.
- The regex recovery of truncated JSON: its result is a parameter. Pydantic: only its coercions of the eight scores; whether the other fields validate is a parameter.
- Comments, tags and suggestions in parsed answers.
- `json.loads`: validity is an arbitrary predicate, parsed values are given.
- The quota row update is one atomic step; the SQLite busy handling and the environment variable are not modelled, the limit is fixed.
- The durable job machine in utils/luma_brain.py is not part of this model.
