# Verified model of LLM Serving Guardian

LLM Serving Guardian is a failover gateway for inference workers. This project models its stateful
kernels and proves what they promise over whole runs, for every input and every interleaving.

| file | content |
|---|---|
| `RoundRobin.dfy` | the cyclic scan of the pool: nearest selectable slot, bounded bypass |
| `Remainder.dfy`, `Rotation.dfy`, `CyclicOrder.dfy` | the scan's index arithmetic; exact rotation over a fixed set; the order in which one caller meets the workers |
| `Circuit.dfy` | one worker's circuit as a function of the reports it received |
| `Pool.dfy` | the pool object (records and cursor updated in place), its value-level specification and a ghost report log |
| `Stream.dfy` | relaying a response body through a reused buffer |
| `Gateway.dfy` | the running gateway as a state machine: requests, prober and clock, interleaved action by action |
| `GatewaySafety.dfy` | invariants of that machine: circuits, retries, commits, report and metric bookkeeping, fairness |
| `Ledger.dfy` | its counters and error codes against the actions that were taken |
| `Quarantine.dfy` | how long an opened circuit keeps a worker out of rotation, the way back through half-open, and recovery |
| `Breakage.dfy` | what broken streams do to a circuit, exactly |
| `Progress.dfy` | every request can go on, and takes boundedly many actions |
| `Proxy.dfy`, `Health.dfy` | the attempt loop and the probe sweep as code on the shared pool object |
| `Simulation.dfy`, `Sweeping.dfy` | the attempt loop and the sweep on the object are runs of the state machine |
| `TokenBucket.dfy`, `Limiter.dfy` | rate limiting: closed form, optimality, per-client isolation, eviction, memory |
| `Dispatch.dfy` | ticket dispatch of the benchmark |
| `Stats.dfy` | latency percentiles |
| `Availability.dfy` | request budget, report counts and fault timeline of the availability experiment |
| `Prelude.dfy` | shared types and finite-set facts |

Conventions. Durations and instants of the gateway are integers in nanoseconds; the limiter works in
seconds over `real`. A zero time stamp is an option in the pool and limiter. A clock reading is a
parameter or a `Clock` object that never runs backwards, as both locks read it inside the critical
section; a failure report reads it twice, so it carries two stamps. What the network does (an
attempt's outcome, the reads of a body, a probe's verdict, a failing client write) is an arbitrary
parameter, and every theorem quantifies over it. The configuration is taken as validated: positive
threshold, cooldown and attempt limit, at least one worker, unique names, burst at least one.

In the state machine a step is one action that is atomic in the program: a pool operation under its
mutex, one metric update, one iteration of the relay loop, one clock tick. The pool object and the
state machine share one specification (`Choice`, `Advance`, `Reported`, `Candidates`), and
`ServeAsRun` and `CheckAsRun` show that an undisturbed call of the attempt loop or of the sweep on the
pool object is a run of the machine in which only its request, or only clock and prober, acts; under
interference the machine interleaves the same actions.

Where the code and its documents differ, the model follows the code. The diagram in
`docs/ARCHITECTURE.md:15-22` has no edge from OPEN straight to CLOSED, but an attempt that was already
in flight, or a probe from a stale candidate list, closes an OPEN circuit at once
(`LateAnswerReadmits`, `StaleProbeReadmits`); `QuarantineIsExact` gives the exact condition under which
this cannot happen. A worker that never was healthy stays PROBING until it has collected
`failureThreshold` failures, and a failure while OPEN moves the end of the cooldown later; both follow
from `LogDeterminesState`. A success is reported when the response arrives and a broken stream only
later, so streams broken one after another leave the failure count at one, but streams of one worker
that are open together add up: `BreaksOpenExactlyAtThreshold` shows that broken streams alone can open a
circuit exactly when as many as the threshold may be open at once. A benchmark run whose context is
cancelled reports success if no request already sent fails; `HolesAreExact` says which slots are then
unmeasured.

## Model

| member | source | states |
|---|---|---|
| RoundRobin.Pick | internal/guardian/pool.go:81-90 | The scan selects the selectable slot nearest to the cursor, and selects something whenever any slot is selectable |
| Remainder.PickStep | internal/guardian/pool.go:81-86 | One iteration with the remainder index either returns that slot or continues the same scan |
| RoundRobin.BoundedBypass | internal/guardian/pool.go:77-91 | A worker that stays selectable is returned within as many calls as the cursor is slots away from it, whatever happens to the others' health and exclusions |
| RoundRobin.NoDoubleOvertaking | internal/guardian/pool.go:77-91 | While a selectable worker waits, the selections made meanwhile are pairwise different |
| Rotation.WindowIsPermutation | internal/guardian/pool.go:77-91 | With a fixed nonempty eligible set E, every run of as many consecutive calls as E has members returns a permutation of E |
| Rotation.CountsStayBalanced | internal/guardian/pool.go:77-91 | After any number of calls on a fixed set, two members' selection counts differ by at most one |
| CyclicOrder.ExclusionWalksRing | internal/guardian/pool.go:81-90 | Excluding what was already returned makes successive calls walk the eligible ring in cyclic order |
| Circuit.FailureRunIsUnique | internal/guardian/pool.go:109-136 | A report log has exactly one length of trailing failures, so the failure count below is well defined |
| Circuit.LogDeterminesState | internal/guardian/pool.go:109-136 | Failure count = failures since the last success; healthy iff there was a success and the count is below threshold; circuit set iff at or above it, until the last failure plus cooldown |
| Circuit.LastErrorIsLatest | internal/guardian/pool.go:109-136 | The error shown is the latest message among the failures since the last success, empty if there is none |
| Circuit.ViewsAgree | internal/guardian/pool.go:94-176 | Eligibility, health and CLOSED are one set; probe candidates are exactly the workers not OPEN; OPEN means waiting out the cooldown of the last failure |
| WorkerPool.CountIsCardinality | internal/guardian/pool.go:138-148 | The healthy count is the size of the set `Next` chooses from |
| WorkerPool.Candidates | internal/guardian/pool.go:94-106 | The candidate list names every probeable worker exactly once and no other, in configuration order |
| WorkerPool.Pool.constructor | internal/guardian/pool.go:58-73 | A new pool starts with every worker unhealthy, no circuit, an empty log and the cursor at the first worker |
| WorkerPool.Pool.Next | internal/guardian/pool.go:77-91 | Returns the specified choice, moves the cursor just past it, changes no circuit, and keeps state and log in agreement |
| WorkerPool.Pool.Find | internal/guardian/pool.go:179-186 | Finds the record with that name, or nothing exactly when no record has it |
| WorkerPool.Pool.ReportSuccess | internal/guardian/pool.go:109-119 | Applies one success report to the named worker and enters it in its log; an unknown name changes nothing |
| WorkerPool.Pool.ReportFailure | internal/guardian/pool.go:122-136 | Applies one failure report to the named worker and enters it in its log; an unknown name changes nothing |
| WorkerPool.Pool.ProbeCandidates | internal/guardian/pool.go:94-106 | Returns the candidates in configuration order |
| WorkerPool.Pool.HealthyCount | internal/guardian/pool.go:138-148 | Counts exactly the set `Next` chooses from |
| WorkerPool.Pool.TakeSnapshot | internal/guardian/pool.go:156-176 | Each row shows the worker's circuit; CLOSED rows are the routable workers, non-OPEN rows the probeable ones |
| WorkerPool.NewPool | internal/guardian/pool.go:50-74 | Accepts exactly nonempty configurations with positive settings, distinct names and parseable URLs; otherwise the first failing check decides the error |
| Stream.CopyStreaming | internal/guardian/proxy.go:200-218 | The client receives a prefix of the upstream bytes; no error iff the body ended regularly and every write succeeded, and then all bytes arrived |
| Gateway.ShapedStep | internal/guardian/proxy.go:89-139 | Every atomic action keeps worker references in range and never turns the clock back |
| GatewaySafety.ReachableCircuits | internal/guardian/pool.go:77-176 | In every reachable state of the concurrent gateway each circuit is the stated function of its log and the public views agree |
| GatewaySafety.RetryDiscipline | internal/guardian/proxy.go:86-129 | Under interference the tried workers are pairwise distinct and at most min(MaxAttempts, workers) many; the attempt header is their number; nothing reaches the client before the single commit |
| GatewaySafety.RelayKeepsBytes | internal/guardian/proxy.go:200-218 | Sent bytes plus the unread rest are the upstream body; whatever is sent is a prefix of it, all of it when the relay ends without error |
| GatewaySafety.FinishedRequestsSettled | internal/guardian/proxy.go:89-139 | A finished request has exactly one status: one worker's response with a prefix of that worker's bytes, or 503 iff none was tried, 504 iff some was and a deadline hit, 502 otherwise |
| GatewaySafety.CommitIsFinal | internal/guardian/proxy.go:115-129 | After the status line a request keeps its status, reply and tries, its bytes only grow, and it never calls a worker again |
| GatewaySafety.EarlyBreakMeansExhausted | internal/guardian/proxy.go:89-93 | When the loop stops with attempts left, every worker eligible at that instant was already tried, and the pool is unchanged |
| Ledger.NoteStep | internal/guardian/proxy.go:98-127 | Every action keeps each counter, together with the notes still owed to it, in step with its own kind of event |
| Ledger.Conservation | internal/guardian/proxy.go:98-127 | Per worker, over any run: transport_error counts the attempts that got no answer, 5xx those answered with 500 or more, success those answered below 500, stream_error the streams reported as broken; failure reports = transport_error + 5xx + stream_error + failed probes; success reports = success + passed probes; complete and broken streams together never exceed successes |
| Ledger.ErrorsAreExplained | internal/guardian/proxy.go:131-139 | A refused request got 503 iff nobody was tried, 504 iff somebody was and its latest failed attempt hit the deadline or the deadline had passed, 502 iff neither |
| Ledger.SweepsAreComplete | internal/guardian/health.go:38-66 | Between one sweep and the next, every worker that the first one listed was probed |
| GatewaySafety.NextCallsChain | internal/guardian/pool.go:77-91 | Over any run nothing but `Next` moves the cursor, so its calls form one rotation |
| GatewaySafety.RunBypass | internal/guardian/pool.go:77-91 | In any run, a worker eligible and untried at each of n successive `Next` calls is returned by one of them |
| GatewaySafety.RunStaysBalanced | internal/guardian/pool.go:77-91 | In any run whose calls choose from one fixed set, selection counts differ by at most one |
| GatewaySafety.RunNoDoubleOvertaking | internal/guardian/pool.go:77-91 | In any run, while an eligible untried worker is passed over nobody else is returned twice |
| Quarantine.ConfinedStep | internal/guardian/pool.go:109-136 | No action before the release time readmits a confined worker or makes anything outstanding on it |
| Quarantine.OpenedCircuitHolds | internal/guardian/pool.go:77-136 | If a circuit opens with no unreported attempt and no pending probe on the worker, no later state within the cooldown makes it eligible and no request is given it; broken streams only postpone this |
| Quarantine.QuarantineIsExact | internal/guardian/pool.go:77-136 | For every reachable state with an OPEN worker: every continuation keeps it out until its cooldown ends iff no attempt on it is unreported and the prober does not hold it |
| Quarantine.StaleProbeReadmits | internal/guardian/health.go:53-66 | A prober that still holds the worker can make it eligible with no time passing |
| Quarantine.LateAnswerReadmits | internal/guardian/proxy.go:115-116 | An attempt in flight can make its worker eligible with no time passing |
| Quarantine.RecoveryIsPossible | internal/guardian/health.go:38-66 | From every well-formed state prober and clock alone can make any worker eligible again |
| Quarantine.ParkedStep | internal/guardian/pool.go:94-136 | A worker with a set circuit and no unreported attempt stays that way, for however long, under every action except a passing probe of it |
| Quarantine.OnlyAProbeReadmits | internal/guardian/health.go:53-66 | After such an opening, at whatever later time the worker is eligible again: a sweep at or after the end of its cooldown listed it, a passing probe followed, and it was never eligible up to that probe |
| Breakage.ExposureStep | internal/guardian/proxy.go:115-127 | A worker's failure count plus its open streams never grows by any action without other failures, except that an answer resets it to the open streams |
| Breakage.BreaksSpendOpenStreams | internal/guardian/proxy.go:115-127 | Along any stretch without a successful attempt on the worker and with broken streams as its only failures, the failure count grows by at most the streams open at the start |
| Breakage.ExposureIsBounded | internal/guardian/proxy.go:115-127 | With successes in between, it never exceeds the greatest number of streams open at once |
| Breakage.FewStreamsStayClosed | internal/guardian/proxy.go:115-127 | If fewer streams than the threshold are ever open at once, broken streams alone leave the circuit closed |
| Breakage.SequentialBreaksStayClosed | internal/guardian/proxy.go:115-127 | The case of one stream at a time: the count stays at most one, and a threshold above one is never reached |
| Breakage.ManyStreamsOpen | internal/guardian/proxy.go:115-127 | For every configuration and worker, a run with `threshold` requests opens the circuit although its only failures are broken streams |
| Breakage.BreaksOpenExactlyAtThreshold | internal/guardian/proxy.go:115-127 | Broken streams alone, with at most m open at once, never open the circuit in any run iff m is below the threshold |
| Progress.RequestIsBounded | internal/guardian/proxy.go:89-139 | Under every interleaving a request takes at most three actions per worker tried, of which there are at most min(MaxAttempts, workers), one per read of the relayed body, and two more |
| Progress.RequestCanAct | internal/guardian/proxy.go:89-139 | A request that is not done always has an action it can take |
| Proxying.NextFollowsRing | internal/guardian/pool.go:77-91 | If only handed-out workers were reported on, the next choice is the next worker of the initial ring |
| Proxying.Proxy.SelectNext | internal/guardian/proxy.go:90-94 | Asking the pool with the attempted set returns the next worker of the line, nothing exactly at its end |
| Proxying.Proxy.FailAttempt | internal/guardian/proxy.go:98-112 | An attempt without an answer, or answered with 500 or more, adds one failure report with its error and one metric note of its kind, and touches no other worker |
| Prelude.DecimalDenotes | internal/guardian/proxy.go:108 | The status in the reported error is printed faithfully: digits without a leading zero that denote the number |
| Proxying.Proxy.Relay | internal/guardian/proxy.go:115-127 | A serving attempt adds one success report and, iff the copy fails, one failure report; the bytes are those the stream delivers |
| Proxying.Proxy.TryWorkers | internal/guardian/proxy.go:86-129 | The attempt loop serves from the first worker of the line that answers below 500, or ends with all tried workers failed and either line or attempts used up |
| Proxying.Proxy.ServeHTTP | internal/guardian/proxy.go:84-140 | Failover: with fixed answers and no concurrent reports, the first worker whose answer has a status below 500, in cyclic order from the cursor and within MaxAttempts, serves; every predecessor gave no answer or 500 and more; the header is its rank; the cursor ends just past the last worker tried; only tried workers change, each by exactly its reports, one after the other |
| Simulation.RelayRun | internal/guardian/proxy.go:200-218 | The machine's relay steps end as the copy loop does: same bytes, same error, nothing else touched |
| Simulation.FailsNext | internal/guardian/proxy.go:90-112 | A failing turn of the loop is the machine's choose, fail and note steps, with the reports at their own time stamps |
| Simulation.ServiceIsRun | internal/guardian/proxy.go:84-129 | A served call is an execution in which only the new request acts, ending with the same logs, cursor, status, header and bytes |
| Simulation.RefusalIsRun | internal/guardian/proxy.go:84-139 | So is a refused call, ending with the same logs, cursor and error |
| Simulation.ServeAsRun | internal/guardian/proxy.go:62-140 | Calling the loop on the object leads from any gateway state that shows the pool to one that shows it afterwards, by actions of one new request whose client got the same answer; the metrics grow by exactly the observer's notes; all other requests are untouched |
| Health.HealthChecker.CheckOnce | internal/guardian/health.go:53-66 | Every worker not waiting out a cooldown at the sweep's clock reading is probed and reported exactly once, one after the other in configuration order, with the probe's verdict; nobody else changes and the cursor stays |
| Sweeping.CheckAsRun | internal/guardian/health.go:53-66 | Calling the sweep on the object leads from any gateway state that shows the pool and has an idle prober to one that shows it afterwards, by actions of clock and prober alone, with exactly the probed workers counted by verdict |
| TokenBucket.TokensAreLeastAllowance | internal/guardian/limiter.go:37-49 | The stored tokens are the minimum, over all windows ending now, of burst + rate * (elapsed time) - (number admitted in the window) |
| TokenBucket.AdmitsExactlyWhatFits | internal/guardian/limiter.go:37-49 | A request is admitted iff for every request j up to it the number admitted since j plus one is at most burst + rate * (time since j) |
| TokenBucket.BucketConforms | internal/guardian/limiter.go:42-49 | The bucket's own decisions keep the window bound |
| TokenBucket.BucketIsOptimal | internal/guardian/limiter.go:42-49 | At every prefix of every arrival sequence the bucket has admitted at least as many as any other choice that keeps the window bound |
| TokenBucket.WindowBound | internal/guardian/limiter.go:37-49 | Any span of time admits at most burst + rate * length requests |
| TokenBucket.BucketRange | internal/guardian/limiter.go:42-49 | Tokens stay between zero and burst, and the last-seen time is that of the last request |
| RateLimiter.Limiter.Allow | internal/guardian/limiter.go:30-60 | Decision and new map are those of the specification; a zero rate admits everything and stores nothing |
| RateLimiter.Limiter.DeleteIdle | internal/guardian/limiter.go:52-56 | Whatever the visiting order, deleting during the loop removes exactly the buckets idle for more than an hour |
| RateLimiter.SharedIsIsolated | internal/guardian/limiter.go:30-60 | When an hour's refill covers the burst, the shared map with eviction decides every request of every interleaving as a never-evicted bucket per client would |
| RateLimiter.EvictionNoticed | internal/guardian/limiter.go:51-58 | Otherwise a concrete arrival sequence is decided differently |
| RateLimiter.EvictionIsTransparentIff | internal/guardian/limiter.go:38-58 | Eviction is invisible on all arrival sequences iff rate * 3600 >= burst |
| RateLimiter.DeletesExactly | internal/guardian/limiter.go:49-58 | Within 60 seconds of the last cleanup no bucket goes; otherwise exactly the buckets last used more than 3600 seconds ago go and the time is remembered; the client's own bucket stays and no other bucket changes |
| RateLimiter.MemoryBound | internal/guardian/limiter.go:37-58 | After every request each retained bucket holds 0 to burst tokens and was used less than 3660 seconds ago; the map is no larger than the set of clients heard from in that span |
| Dispatch.TicketsAreUnique | internal/benchmark/run.go:52-55 | Over the whole run each index is drawn, requested and written at most once, so no two workers ever hold it |
| Dispatch.EverySlotMeasured | internal/benchmark/run.go:47-76 | A finished run without errors or cancellation has written every slot exactly once, with the sample of that index's only request |
| Dispatch.HolesAreExact | internal/benchmark/run.go:52-76 | At any instant with the caller's context cancelled: if the run then finishes without an error, a slot is empty iff no request had been sent for its index at that instant |
| Dispatch.CancelledBeforehandMeasuresNothing | internal/benchmark/run.go:52-76 | A context cancelled before the call: the run reports success and every slot is empty |
| Dispatch.HolesAreCancellations | internal/benchmark/run.go:56-58 | In a finished run that reports success the empty slots are the unwritten ones, and there are none without cancellation |
| Dispatch.CancelledParentLeavesHole | internal/benchmark/run.go:56-76 | Such a run exists: it finishes with no error and an empty slot |
| Dispatch.StopSendsNothing | internal/benchmark/run.go:56-66 | From the instant a request has failed, or the caller's context is cancelled, no request is sent for any index |
| Dispatch.OnlySentRequestsReturn | internal/benchmark/run.go:56-67 | After the first error only requests sent before it can still answer, be stored or fail |
| Dispatch.FirstErrorIsKept | internal/benchmark/run.go:60-66 | At every instant the kept error is the first one raised, and it is never replaced |
| Dispatch.RunIsBounded | internal/benchmark/run.go:47-71 | Every execution takes at most 4 * requests + concurrency + 1 atomic actions |
| Dispatch.SomeWorkerCanAct | internal/benchmark/run.go:47-71 | While a worker has not exited some worker can act, so every run can finish |
| Stats.SortIsUnique | internal/benchmark/stats.go:67 | The sorted permutation of a slice is unique, so it is what the library's sort returns |
| Stats.PercentilesAreOrdered | internal/benchmark/stats.go:75-82 | Percentiles of a sorted list grow with the quantile and stay between its first and last value |
| Stats.RankIsExact | internal/benchmark/stats.go:75-82 | Whenever (n - 1) * quantile is a whole number k, the percentile is the k-th smallest sample in milliseconds |
| Stats.EvenlySpacedIsExact | internal/benchmark/stats.go:75-82 | On evenly spaced samples the percentile lies (n - 1) * quantile gaps above the first sample |
| Stats.MedianIsMiddle | internal/benchmark/stats.go:63-73 | P50 of an odd number of samples is the middle one |
| Stats.StatsAreRanks | internal/benchmark/stats.go:63-73 | Of 100 k + 1 samples the three statistics are those of rank 50 k, 95 k and 99 k |
| Stats.SortKeepsBelow | internal/benchmark/stats.go:67 | If one list is pointwise at most another, so are their sorted versions |
| Stats.StatsIgnoreOrder | internal/benchmark/stats.go:63-73 | The statistics depend only on the multiset of samples |
| Stats.StatsAreOrdered | internal/benchmark/stats.go:63-82 | min <= P50 <= P95 <= P99 <= max |
| Stats.StatsAreMonotone | internal/benchmark/stats.go:63-82 | If the samples can be matched with samples of another run that are no smaller, every percentile is no larger |
| Stats.ComputeLatencyStats | internal/benchmark/stats.go:63-73 | The slice is left sorted and its ranks yield the specified statistics; an empty slice yields zeros |
| Stats.SamplesAdd | internal/benchmark/stats.go:45-52 | Token totals and token times of two groups of samples add up, in order |
| Stats.OneSample | internal/benchmark/stats.go:46-51 | One sample contributes its tokens and, with a second token and time after the first, the whole part of the time per later token |
| Stats.Summarize | internal/benchmark/stats.go:37-61 | Every sample counts once, rates are counts over wall time (zero without samples or time), and each percentile group covers exactly the samples that have that latency |
| Availability.ToAttempt | internal/benchmark/availability_run.go:103-121 | Time stamps, worker, attempts and stream flag are the sample's; the error category is empty iff the request succeeded, and names a broken stream iff it failed after streaming began |
| Availability.IssuedExactly | internal/benchmark/availability_run.go:77-84 | One request is issued for each loop entry with time left until the budget is used up; an entry after the deadline issues none and ends its worker for good |
| Availability.BudgetIsUsedUp | internal/benchmark/availability_run.go:77-92 | If the deadline stops no worker, a run ends only when the whole budget was issued and recorded |
| Availability.BudgetAndConservation | internal/benchmark/availability_run.go:71-92 | Under every interleaving at most MaxRequests requests are issued, and when all workers have exited the shared slice holds each produced attempt once |
| Availability.Conclude | internal/benchmark/availability_run.go:95-100 | Both slices come out in time order with the same elements; the run is an error iff no observation listed a worker |
| Availability.NewAvailabilityReport | internal/benchmark/availability_report.go:78-126 | Exact counts with Successful + Failed = Total, per-worker successes that sum to Successful, and the first outage and recovery in the observation order |
| Availability.FindObserved | internal/benchmark/availability_report.go:128-135 | Returns the first entry with the name, nothing exactly when there is none |
| Availability.CountIgnoresOrder | internal/benchmark/availability_report.go:87-103 | No count depends on the order of the attempts |
| Availability.TimelineIsEarliest | internal/benchmark/availability_report.go:107-124 | On time-sorted observations DetectedAt is the earliest unhealthy observation at or after the fault, RecoveredAt the earliest later healthy one, fault <= detected <= recovered, and the reported seconds are the differences to the fault |
| Availability.TimelineIgnoresOrder | internal/benchmark/availability_run.go:95-96 | The same of the observations as collected, however they arrived and however the sort orders equal stamps; both times are those of collected observations that show the outage and the recovery |
| Availability.ReportAccountsForRun | internal/benchmark/availability_report.go:86-103 | A report on a finished run counts every issued request once, within the budget; interrupted streams are exactly the attempts categorised so |

## Left out

- HTTP transport, TLS, request construction and the body of a probe (`Proxy.attempt`, `HealthChecker.probe`): an arbitrary outcome takes their place.
- The checks before the attempt loop (`internal/guardian/proxy.go:63-82`: 429, 413, 400): one branch each; the limiter's decision itself is modelled.
- `removeHopHeaders`, header copying, `singleJoiningSlash` and `clientKey`: string handling that no other property depends on.
- `internal/config/config.go`, `internal/guardian/server.go`, `internal/benchmark/client.go`, the mock worker, the commands and scripts: parsing, routing and I/O plumbing.
- Logging, Prometheus, JSON and digests: only the observer calls are kept, as counters or notes.
- Rounding of `float64` and integer overflow: numbers are unbounded integers and reals.
- An upstream body is a finite list of reads; a body that never ends is not modelled.
- Limiter and gateway are separate models: no property of one depends on the other.
- The order in which sorting leaves equal time stamps: results are stated for any such order.
- Argument checks, the default budget and the polling loop of `RunAvailability`, and the warmup of `Run`: one-branch code before the modelled loops.
- Stats.SortInPlace: stands for the standard library's sort, stated by its result and not by its algorithm.
- Availability.SortBy: likewise, on values, so the reuse of the slice's storage is not captured.
- Pointer identity of workers: a worker is a value, its name and address, since the program never changes it after construction.
