# High-concurrency load test: a verified model

`high_concurrency_test.py` is an HTTP load generator. For each of three fixed
configurations (800, 1200 and 1600 requests per second, for 15 or 20
seconds), `run_simple_test` drives a target URL in 50 ms slices:

- each slice launches `max(1, int(target_rps * 0.05))` concurrent `send_request`
  coroutines, waits for all of them with `asyncio.gather(..., return_exceptions=True)`,
  folds the results into `total_requests`, `successful_requests` and the
  `latencies` list, and sleeps out whatever is left of the 50 ms;
- after every slice it runs a progress check `total_requests % (target_rps // 2)`;
- once the clock passes the duration it reports the actual rate, the success
  rate, the target achievement and, when there are samples, the average, p50,
  p95, minimum and maximum latency.

`send_request` turns every response whose JSON body it read into a success
record carrying the status code and the latency in milliseconds. Every
`Exception` raised inside its `try` becomes a failure record that still
carries a latency; that includes a body that does not parse as JSON.

The Dafny model has six modules:

- `Outcomes` (`outcomes.dfy`): `send_request`, the `gather` join and the task list.
- `Aggregate` (`aggregate.dfy`): the counters and the collect loop.
- `Stats` (`stats.dfy`): the latency summary.
- `Pacing` (`pacing.dfy`): batch size, pacing sleep, rates and the progress check.
- `Runner` (`runner.dfy`): `run_simple_test` as a method with a `while` loop over
  slices, specified by the function `RunResult`.
- `Orchestrator` (`orchestrator.dfy`): the loop over the configurations.

`seqs.dfy` holds two multiset lemmas and `wrappers.dfy` holds `Option` and
`Result`.

The clock and the network are inputs of type `Runner.Env`:

- the elapsed time at each test of the `while` condition;
- for each slice, how each coroutine ended (a response, a caught exception,
  or an exception that escaped into `gather`'s result list) and how long the
  batch took;
- the final elapsed time.

A run that raises is modelled as an `Err(ZeroDivision(site))`:

- the progress check when `0 <= target_rps < 2`;
- `actual_rps` when no time elapsed;
- the target achievement when `target_rps == 0`.

## Model

| member | source | states |
|---|---|---|
| Pacing.BatchSize | high_concurrency_test.py:51-52 | the batch is at least 1; it equals `floor(target_rps * 0.05)` whenever that is at least 1, and is 1 otherwise |
| Pacing.PoolHoldsBatch | high_concurrency_test.py:38-42 | for a positive target, the connection pool limit `2 * target_rps` is at least the batch size |
| Pacing.SleepTime | high_concurrency_test.py:75-78 | the sleep is never negative; it is positive exactly when the batch finished early, and then it tops the batch up to the interval exactly; it never exceeds the interval when the elapsed time is non-negative |
| Pacing.SuccessRate | high_concurrency_test.py:83 | 0 when there are no requests; otherwise `rate * total == successful * 100`; within [0, 100] when `successful <= total`; 0 exactly when there are no requests or no successes; 100 exactly when every request succeeded |
| Pacing.ProgressDue | high_concurrency_test.py:85 | it raises exactly when `target_rps // 2 == 0`, that is `0 <= target_rps < 2`; otherwise it is true exactly when `total_requests` is a multiple of `target_rps // 2`, and always true for 0 requests |
| Pacing.ActualRps | high_concurrency_test.py:90-91 | it raises exactly when the elapsed time is 0; otherwise `rps * elapsed == total` |
| Pacing.TargetAchievement | high_concurrency_test.py:99 | it raises exactly when the target is 0; otherwise `achievement * target == actual_rps * 100` |
| Outcomes.LatencyMs | high_concurrency_test.py:122 | the latency in milliseconds is the elapsed seconds times 1000, and is non-negative when the clock does not go back |
| Outcomes.SendRequest | high_concurrency_test.py:116-135 | a response whose JSON body was read becomes a success, whatever the status code, and an exception (including unparsable JSON) becomes a failure; both carry the latency; the success keeps the status code and the failure keeps the error text |
| Outcomes.Resolve | high_concurrency_test.py:65 | an exception that escaped the coroutine is returned as an exception object; a coroutine that returned gives its record, which is `send_request`'s own result for that request and is a success exactly when it got a response |
| Outcomes.ResolveAll | high_concurrency_test.py:65 | one result per coroutine, in coroutine order, each the resolution of that coroutine |
| Outcomes.ResolveAllPermutation | high_concurrency_test.py:65 | reordering the coroutines only reorders the results (multiset equality) |
| Outcomes.Gather | high_concurrency_test.py:65 | `gather` returns exactly one result per task, and the list is `ResolveAll` of the coroutine fates, so `ResolveAllPermutation` applies to it: reordering the coroutines only reorders the results |
| Outcomes.SuccessMeansResponse | high_concurrency_test.py:70 | `CountsAsSuccess`, the test `isinstance(result, dict) and result.get('success')`, holds for a gathered result exactly when its coroutine returned after reading a response, and then the result's latency is that request's elapsed time |
| Outcomes.BuildTasks | high_concurrency_test.py:60-63 | the task list has exactly `batch_size` entries, each a `send_request` to the URL |
| Aggregate.Record | high_concurrency_test.py:69-72 | one result adds exactly one request; it adds a success exactly when it `CountsAsSuccess`; it appends exactly as many samples as successes it adds, at most one; earlier samples are kept; and `successful <= total` and `len(latencies) == successful` are preserved; a success appends exactly its latency, and any other result only increments `total` |
| Aggregate.Absorb | high_concurrency_test.py:68-72 | `total` grows by the number of results, `successful` by the number of success records, `latencies` is extended by their latencies in order, and `successful <= total` and `len(latencies) == successful` are preserved |
| Aggregate.Collect | high_concurrency_test.py:68-72 | the collect loop leaves the counters exactly as `Absorb` describes |
| Aggregate.SamplesConcat | high_concurrency_test.py:68-72 | the success count and the samples of two result lists taken together are those of each list combined |
| Aggregate.SampleOrigin | high_concurrency_test.py:70-72 | every latency sample is the latency of some success record in the results |
| Aggregate.NoSuccessNoSamples | high_concurrency_test.py:70-72 | failure records and exception objects add no success and no sample |
| Aggregate.SamplesPermutation | high_concurrency_test.py:68-72 | the order of the results changes neither the success count nor the multiset of samples |
| Stats.Sort | high_concurrency_test.py:106 | the result is sorted and is a permutation of the samples |
| Stats.SortedUnique | high_concurrency_test.py:106 | two sorted permutations of the same samples are equal, so `sorted` is determined by the samples |
| Stats.SortOfSorted | high_concurrency_test.py:106 | sorting sorted samples changes nothing, so sorting is idempotent |
| Stats.Min | high_concurrency_test.py:104 | the minimum is one of the samples and no sample is below it |
| Stats.Max | high_concurrency_test.py:103 | the maximum is one of the samples and no sample is above it |
| Stats.SortedEnds | high_concurrency_test.py:103-106 | the first sorted sample is the minimum and the last is the maximum |
| Stats.Mean | high_concurrency_test.py:102 | the average lies between the minimum and the maximum |
| Stats.MeanTimesCount | high_concurrency_test.py:102 | the average times the number of samples is their `sum`, so it is `sum / len` |
| Stats.SumBounds | high_concurrency_test.py:102 | `sum` of n samples that all lie in [lo, hi] lies in [n*lo, n*hi] |
| Stats.SumConcat | high_concurrency_test.py:102 | `sum` of two lists taken together is the sum of the two sums |
| Stats.SumPermutation | high_concurrency_test.py:102 | the sum does not depend on the order of the samples |
| Stats.P50Index | high_concurrency_test.py:107 | `n // 2` is a valid index: `2*i <= n < 2*i + 2` and `i < n` |
| Stats.P95Index | high_concurrency_test.py:108 | `floor(n * 0.95)` is a valid index, never before the p50 index |
| Stats.Summarize | high_concurrency_test.py:101-108 | statistics exist exactly when there are samples; then `min <= p50 <= p95 <= max`, `min <= avg <= max`, p50, p95, min and max are samples, and every sample lies between min and max; avg is the mean of the samples, and p50 and p95 are the elements at indices `len // 2` and `int(len * 0.95)` of the sorted samples |
| Stats.SummarizePermutation | high_concurrency_test.py:101-108 | the statistics depend only on the multiset of samples |
| Stats.FiveSampleExample | high_concurrency_test.py:101-108 | for samples 10, 20, 30, 40, 50 the indices are 2 and 4, and avg, p50, p95, min, max are 30, 30, 50, 10, 50 |
| Runner.SlicesRun | high_concurrency_test.py:56 | the number of slices is the number of clock readings before the first one that reaches the duration |
| Runner.SliceSleep | high_concurrency_test.py:75-78 | at most one sleep per slice; none exactly when the batch overran the interval; otherwise it completes the 50 ms |
| Runner.Sleeps | high_concurrency_test.py:56-78 | no more sleeps than slices, each positive and, for non-negative batch times, at most 50 ms |
| Runner.After | high_concurrency_test.py:56-72 | after any slices, `successful <= total` and `len(latencies) == successful` |
| Runner.AfterTotal | high_concurrency_test.py:60-69 | every slice adds exactly `batch_size` to `total_requests` |
| Runner.AfterGrows | high_concurrency_test.py:68-72 | both counters only grow from slice to slice, and earlier latencies are a prefix of later ones |
| Runner.Report | high_concurrency_test.py:89-108 | it raises exactly when no time elapsed or the target is 0 (no elapsed time raises first); otherwise it reports the counters, a rate in [0, 100], the actual rate, and statistics exactly when a request succeeded; the rate is `successful / total * 100` (0 with no requests), the achievement is `actual_rps / target_rps * 100`, and the statistics are those of the recorded samples |
| Runner.SlicesStarted | high_concurrency_test.py:56-85 | the number of slices dispatched is never more than the supplied slices or the slices the clock allows; `StopsAtProgressCheck` and `EndsWithReport` show it is 1 when the progress check raises and the clock's count otherwise |
| Runner.RunResult | high_concurrency_test.py:35-108 | the closed form of one run: it raises when no time elapsed, and a completed run never reports more successes than requests; `RunOutcome` states the rest and `RunSimpleTest` is proved equal to it |
| Runner.RunOutcome | high_concurrency_test.py:35-108 | the run raises exactly when the progress check divides by zero after a first slice, when no time elapsed, or when the target is 0, and the earliest of these is the one raised; otherwise `total_requests` is slices times batch size, successes never exceed it, the rate is in [0, 100], and statistics appear exactly when a request succeeded |
| Runner.RunSimpleTest | high_concurrency_test.py:35-114 | the imperative loop ends exactly as `RunResult` says and asks for exactly the sleeps `Sleeps` lists for the slices it dispatched |
| Runner.RunSlice | high_concurrency_test.py:57-78 | one slice builds the tasks, gathers, folds the results into the counters as `Absorb` says, and sleeps as `SliceSleep` says |
| Runner.Finish | high_concurrency_test.py:89-108 | the final block computes exactly `Report` |
| Runner.StopsAtProgressCheck | high_concurrency_test.py:56-85 | with a target of 0 or 1 and time left, the run raises the modulo by zero after its first slice |
| Runner.AfterPermutation | high_concurrency_test.py:65-72 | reordering the results within any slice changes neither counter nor the multiset of samples |
| Runner.RunPermutation | high_concurrency_test.py:65-108 | the order in which `gather` lists each slice's results does not change how the run ends |
| Runner.ReportPermutation | high_concurrency_test.py:89-108 | the report depends on the latency samples only as a multiset |
| Runner.NothingSucceeds | high_concurrency_test.py:68-108 | when every request fails, a completed run reports 0 successes, a success rate of 0 and no latency statistics, and a positive total when at least one slice ran |
| Orchestrator.ConfigsAreSafe | high_concurrency_test.py:20-24 | every configured target is at least 2, and the batches are 40, 60 and 80 requests |
| Orchestrator.OnlyDurationFails | high_concurrency_test.py:20-30 | with a target of at least 2, the only exception a run can raise is the division by a zero elapsed time |
| Orchestrator.RunConfigs | high_concurrency_test.py:26-33 | configurations run in order; every completed run gives its report; a raising run ends the loop with its error; one 3-second pause follows each completed run |
| Orchestrator.SimpleExtremeTest | high_concurrency_test.py:11-33 | over the three fixed configurations, each report is that configuration's run; the loop stops early only on a division by a zero elapsed time |

## Left out

- The aiohttp session, connector, `session.get` and `response.json()` are not modelled. A request is an abstract `Attempt`: a response status, or an exception message with the start and end times. The response's `data` field is never read by the test, so it is omitted.
- `asyncio` concurrency is not modelled. A batch is the finished list of coroutine outcomes; `gather` keeps task order, and the permutation lemmas show that order does not matter.
- `KeyboardInterrupt` and `SystemExit` are not modelled: asyncio re-raises them out of the event loop to the top-level handler at lines 137-149, which is not modelled either. The only exception that escapes a `send_request` coroutine and comes back from `gather` as a returned object is cancellation (`asyncio.CancelledError`, outside `Exception`); that is the `Escaped` case.
- The wall clock is not modelled. Each clock reading is an input in `Runner.Env`, and the `asyncio.sleep` calls appear only as the list of sleep lengths the run asks for. `Runner.Fits` is the environment's side of the contract: one result per task and a final reading that reaches the duration.
- Printed output is not modelled: the banners, the progress line (lines 86-87) and the result lines. `current_rps` (line 82) is only printed, so it is left out; its guard keeps it from raising.
- Real numbers stand in for IEEE floats, so the model does not capture rounding in the rates and the mean.
- Stats.P95Index: `int(n * 0.95)` is taken as the exact `floor(n * 95 / 100)`. The double nearest 0.95 is too close to 0.95 for the float product to fall below an integer that the exact product reaches, so the two formulas agree.
- Pacing.BatchSize: `int` truncates `target_rps * 0.05`; the model uses `target_rps / 20`, which gives the same batch after `max(1, ·)` for every integer target, and the same floor for every non-negative target, because the double nearest 0.05 lies above 0.05. For a negative target `int` rounds toward zero while `/ 20` rounds down, but both results are below 1, so `max(1, ·)` gives 1 either way.
- The `ttl_dns_cache` setting and the pool behaviour for non-positive `limit` values are connector internals and are not modelled.
- stress_test_serve.py (a Ray Serve deployment) and locust_example.py (a Locust user declaration) are not part of this model; both are thin wrappers over third-party frameworks.
