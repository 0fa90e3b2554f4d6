# Verified model of the RayX service lane and its drivers

RayX serves synthetic requests on *lanes*. A lane owns a FIFO queue under one
mutex and one consumer thread that pops a request, runs its chunks, and sets its
promise. Clients submit (plainly, with a queue cap, or in bulk), and may cancel a
request through a token: while it is queued, `cancel()` sets the promise itself;
while it runs, `cancel()` asks the lane to stop at the next chunk boundary.
Around the lanes sit client loops that hold a window of requests in flight, a
deterministic service-time sequence shared by Python and C++, a request-id
format, percentile summaries, and a gate/barrier witness. This project models
these parts in Dafny and proves what they are for.

## How the model is laid out

| file | contents |
|---|---|
| `TokenSpec.dfy` | the token's phases and the effect of each of its critical sections |
| `LaneMachine.dfy` | the lane, its clients and its tokens as an interleaving step system |
| `LaneInvariant.dfy` | the inductive invariant of every reachable state |
| `LaneOutcomes.dfy` | exactly-once fulfilment, and what `cancel()` promises |
| `LaneDrain.dfy` | no lost wakeup, bounded work, graceful drain |
| `LaneHistory.dfy` | FIFO order, serial service intervals, coherent snapshots |
| `LaneAdmission.dfy` | bounded admission on one lane and over a burst on several |
| `LaneObjects.dfy` | `Promise`, `CancelToken` and `ServiceLane` as imperative classes |
| `LaneBigStep.dfy` | the object's chunk loop is a run of the step system |
| `ChunkSchedule.dfy` | the chunk schedule; the Ray actor's loop |
| `Barrier.dfy` | the one-shot gate as a step system |
| `RetireLoops.dfy`, `MultiClient.dfy`, `RoundRobin.dfy` | the client loops, the partition of work over client threads, lane routing |
| `Bits.dfy`, `ServiceSequence.dfy` | the splitmix64 draw in Python's and in C++'s arithmetic |
| `RequestIds.dfy`, `Percentile.dfy`, `Inversions.dfy` | ids, percentiles, the executable FIFO check |
| `Basics.dfy` | index ranges, sums, quotients |

The concurrent parts are step systems. An event is one critical section, one
atomic access, one condition-variable operation or one promise operation, so a
thread may be preempted between its push and its notify, between the phase flip
in `cancel()` and its `set_value`, between any two chunks, between setting
`stop_` and notifying, and so on. Client threads are anonymous: the state counts
the notifies that are owed and, per request, the `set_value` calls that are owed.
A run is a sequence of enabled events; main results hold for every run. Fairness
is replaced by counting: every step a thread is committed to lowers a measure,
and a state with unfinished work has such a step. The condition variable may wake
spuriously; a token may be cancelled from the moment its request is queued, even
after the lane is gone. `ServiceLane` and `HpxLane` differ only in lock types,
sleeps and actor-id prefix, so one machine and one class stand for both.

Clock readings are integers that never decrease. Durations, percentiles and the
draw are exact reals or integers. The readiness of futures, the marks of chunks
during which clients cancel, and the moment the deadline passes are parameters.

## Where the code does less than its comments say

* A request with an unsupported `work_mode` fails after `begin_service` has armed
  its token. If it has more than one chunk, a later `cancel()` returns true and
  `is_cancelled()` stays true although the row says "failed".
  `LaneOutcomes.UnknownModeBreaksCancel` is such a run;
  `LaneOutcomes.CancelHonestIff` gives the exact condition. The command line
  (hpx_impl/hpx_synthetic_baseline.cpp:326-329) and the Python engine
  (bench/smoke_rayx.py:379-382) reject such a mode before it reaches a lane, so the
  failing run needs a C++ caller that calls `submit` directly.
* The barrier's success case is not independent of timing: if the deadline comes
  first the watchdog can win the compare-and-swap, and the round then reports a
  failure (`Barrier.WatchdogCanWin`). A finished success round is a success iff the
  coordinator never came to that swap with the gate still closed
  (`Barrier.SuccessIff`); it never does once a poll has seen all N arrivals
  (`Barrier.PollSeesAll`).
* The total in flight is not held at `--concurrency`
  (hpx_impl/hpx_synthetic_baseline.cpp:609-611) when there are more client threads
  than that: `MultiClient.ThreadsInFlight` is a run with one request of every thread
  in flight. Every interleaving holds it iff there are no more threads than
  `--concurrency` or no requests at all (`MultiClient.InFlightHeldIff`).
* Sorting records by request id restores submission order only up to 10^6 requests
  (`RequestIds.SortRestoresOrderIff`).
* On an empty list the Python percentile is `None`, the C++ one 0.

## Model

| member | source | states |
|---|---|---|
| `LaneInvariant.StepInv` | hpx_impl/service_lane.hpp:97-106 | every critical section of clients, tokens and consumer keeps the lane invariant: FIFO queue, one holder of each promise, token phase agreeing with the lane's position, a notify owed to a sleeping lane with work |
| `LaneInvariant.Reachable` | hpx_impl/service_lane.hpp:403-442 | that invariant holds in every state any interleaving can reach |
| `LaneOutcomes.AtMostOnce` | hpx_impl/service_lane.hpp:109-144 | a promise is never set twice, and a cancel() that still owes its set_value excludes any row and any service |
| `LaneOutcomes.ExactlyOnce` | hpx_impl/service_lane.hpp:403-441 | at quiescence each admitted promise was set exactly once: by the cancel() call decided while the request was queued if there was one, else by the lane |
| `LaneOutcomes.OneTrueCancel` | hpx_impl/service_lane.hpp:118-144 | at most one cancel() call on a token ever returns true, whatever the request, and is_cancelled() holds iff one did |
| `LaneOutcomes.CancelTellsTheRow` | hpx_impl/service_lane.hpp:472-528 | for sleep and spin requests a cancel() returned true iff the row is cancelled; chunks_completed is what ran: 0 for a queued cancel, 1..n-1 for a running one, max(1, chunks) when completed; no such row is failed |
| `LaneOutcomes.OnlyUnknownModesFail` | hpx_impl/service_lane.hpp:478-484 | a row is failed iff the lane set it and the mode is neither sleep nor spin; then nothing ran |
| `LaneOutcomes.CancelHonestIff` | hpx_impl/service_lane.hpp:478-484 | over all runs, "some cancel() returned true iff the row is cancelled" holds for a cancelable request iff its mode is sleep or spin or it has at most one chunk |
| `LaneOutcomes.UnknownModeBreaksCancel` | hpx_impl/service_lane.hpp:151-157 | a concrete run in which cancel() returns true and the row is "failed" |
| `LaneOutcomes.SettledForever` | hpx_impl/service_lane.hpp:182-187 | is_cancelled() never reverts to false, and a row once set never changes |
| `LaneOutcomes.StopHasABoundary` | hpx_impl/service_lane.hpp:103-106 | whenever a stop is requested or could still be accepted, the lane has a boundary call ahead |
| `LaneOutcomes.NextBoundaryStops` | hpx_impl/service_lane.hpp:159-173 | with a stop requested, the lane's next boundary call yields a cancelled row with the chunks run so far |
| `LaneOutcomes.StopIsHonoured` | hpx_impl/service_lane.hpp:487-520 | no continuation from a requested stop ends in anything but a cancelled row set by the lane |
| `LaneDrain.NoLostWakeup` | hpx_impl/service_lane.hpp:352-381 | a sleeping consumer with a queued request or stop_ set is still owed a notify, after single and bulk submits alike |
| `LaneDrain.StuckMeansServed` | hpx_impl/service_lane.hpp:405-417 | when no thread has a step left, the queue is empty, every promise is set, and the consumer is asleep or, after a stop, gone |
| `LaneDrain.ReturnsOnlyDrained` | hpx_impl/hpx_lane.hpp:243-256 | the consumer returns only after stop_ on an empty queue, with every promise set or owned by a cancel() |
| `LaneDrain.ExitedOwesNothing` | hpx_impl/service_lane.hpp:224-231 | after the join every promise is set, or a cancel() past its phase flip still owes exactly that one set_value |
| `LaneDrain.WorkIsBounded` | hpx_impl/service_lane.hpp:403-441 | in every run the committed steps are at most what was left at the start plus what submissions, stop and spurious wakeups added; cancels add nothing |
| `LaneDrain.DrainTerminates` | hpx_impl/hpx_lane.hpp:88-95 | once stop_ is set, every schedule takes a bounded number of steps and one that cannot go on has served every request and let the thread return |
| `LaneDrain.CanFinish` | hpx_impl/service_lane.hpp:224-231 | from every reachable state the committed steps alone reach such an end |
| `LaneHistory.PopsFollowPushes` | hpx_impl/service_lane.hpp:209-214 | pops so far followed by the queue are the pushes in order |
| `LaneHistory.ServedIsPushedMinusCancelled` | hpx_impl/service_lane.hpp:419-430 | at quiescence the lane's rows, in the order it set them, are the pushed requests minus those a queued cancel won |
| `LaneHistory.ServiceIsSerial` | hpx_impl/service_lane.hpp:444-461 | service intervals of one lane are disjoint and ordered like the pushes; only a queued cancel can be out of order |
| `LaneHistory.RowHasItsReadings` | hpx_impl/service_lane.hpp:472-526 | start_ns and end_ns of a row the lane set are the clock readings at two moments of the run: that request's own entry into service() and its own end |
| `LaneHistory.StatsAreCoherent` | hpx_impl/service_lane.hpp:235-257 | what a snapshot shows as neither queued nor active is over, and nothing queued was served |
| `LaneHistory.TokenlessRunHasNoInversions` | hpx_impl/hpx_task_dataflow_probe.cpp:200-216 | any lane run without tokens has no inverted pair of end times |
| `LaneAdmission.AdmissionBand` | hpx_impl/service_lane.hpp:294-341 | with try_submit only, queue <= cap, queue plus in-service <= cap + 1, and min(attempts, cap) <= admitted <= min(attempts, cap + pops) |
| `LaneAdmission.NonPositiveCapRejectsAll` | hpx_impl/hpx_lane.hpp:160-166 | a cap of zero or less admits nothing |
| `LaneAdmission.CancelledStillCount` | hpx_impl/service_lane.hpp:303-312 | cancels free no slot: the next try_submit decides on the same depth, and a reject leaves the lane as it was |
| `LaneAdmission.BurstBand` | experiments/18_bounded_admission_burst/run_bounded_admission_burst.py:44-47 | of n attempts over L round-robin lanes, between min(n, L*cap) and min(n, L*cap + pops) are admitted |
| `LaneObjects.CancelToken.Cancel` | hpx_impl/service_lane.hpp:118-144 | the token's new phase, the answer, the count of true answers (never above one), and the promise: set to a zero-length cancelled row iff this call won while queued, untouched otherwise |
| `LaneObjects.CancelToken.BeginService` | hpx_impl/service_lane.hpp:151-157 | service begins iff no cancel() has returned true, and is running-cancellable only with more than one chunk |
| `LaneObjects.CancelToken.StopAtBoundary` | hpx_impl/service_lane.hpp:165-173 | a requested stop is taken here; otherwise the final chunk ends cancellability in the same section |
| `LaneObjects.CancelToken.MarkCompleted` | hpx_impl/service_lane.hpp:177-180 | only a running token becomes completed |
| `LaneObjects.CancelToken.IsCancelled` | hpx_impl/service_lane.hpp:182-187 | true iff one cancel() call on this token returned true, whether or not the row is there yet |
| `LaneObjects.ServiceLane.Submit` | hpx_impl/service_lane.hpp:266-292 | one item with a fresh promise, and a fresh queued token on demand, goes to the end of the queue, with its depth and time at enqueue when diag is on |
| `LaneObjects.ServiceLane.TrySubmit` | hpx_impl/service_lane.hpp:315-341 | rejects iff the queue is at the cap, changing nothing; otherwise all that Submit promises |
| `LaneObjects.ServiceLane.SubmitBulk` | hpx_impl/service_lane.hpp:358-382 | the group goes to the end of the queue in order, without tokens, one fresh promise each, with its depth and a never falling time at enqueue |
| `LaneObjects.ServiceLane.Stats` | hpx_impl/service_lane.hpp:250-257 | the snapshot counts pushes minus pops and changes nothing |
| `LaneObjects.ServiceLane.Service` | hpx_impl/service_lane.hpp:472-528 | status, chunks run and the emitted slices for any chunks during which clients cancel; a sleep or spin request never fails and is cancelled iff a cancel() returned true; any other mode fails with nothing emitted |
| `LaneObjects.ServiceLane.RunChunks` | hpx_impl/service_lane.hpp:487-520 | the chunk loop stops at the boundary after the first cancel before the final chunk, having emitted exactly the slices up to it |
| `LaneObjects.ServiceLane.ServeNext` | hpx_impl/service_lane.hpp:410-440 | the oldest item is popped and its promise set by the lane, unless a queued cancel had set it; then nothing runs |
| `LaneObjects.ServiceLane.Run` | hpx_impl/service_lane.hpp:403-441 | with stop_ set the loop empties the queue, keeps queued-cancel rows, serves every other request with the cancels of its chunks, and serves in disjoint intervals in order |
| `LaneObjects.ChunksRun` | hpx_impl/service_lane.hpp:487-501 | the first cancel before the final chunk stops the request after that chunk; a later one has no effect |
| `LaneBigStep.ServiceIsARun` | hpx_impl/service_lane.hpp:487-520 | for a cancelable sleep or spin request the step system, scheduled with the same cancels, ends the service with the status and chunk count of the object's loop |
| `ChunkSchedule.AtBoundary` | hpx_impl/service_lane.hpp:488-517 | at the boundary before chunk c exactly c active slices and c gaps are over |
| `ChunkSchedule.Alternates` | hpx_impl/service_lane.hpp:487-517 | active slices and gaps alternate, an active one first |
| `ChunkSchedule.FullTotal` | hpx_impl/service_lane.hpp:449-461 | the whole service lasts service_ms plus max(1, chunks) - 1 delays |
| `ChunkSchedule.RayServe` | ray_impl/ray_actor_baseline.py:48-92 | the Ray actor emits the same schedule as the lane, with absent or zero chunks read as one; it fails for any mode but sleep |
| `Barrier.GateIsSafe` | hpx_impl/hpx_barrier_witness_spike.cpp:116-144 | the gate is set at most once, nobody is released before, opener LAST means all N arrived, and in the failure shapes arrivals stay below N |
| `Barrier.SignatureHolds` | hpx_impl/hpx_barrier_witness_spike.cpp:184-219 | a finished round has set the gate once, joined everyone and released exactly those who arrived: n, n - 1 or all launched, by case; failure shapes match their signature, opener watchdog and error count included, the success shape iff the opener is not the watchdog |
| `Barrier.SuccessIff` | hpx_impl/hpx_barrier_witness_spike.cpp:119-170 | a finished success round is as expected iff no step of the schedule is the coordinator's swap at the deadline with the gate still closed |
| `Barrier.PollSeesAll` | hpx_impl/hpx_barrier_witness_spike.cpp:161-170 | once a poll reads N arrivals the coordinator joins the children and never takes the swap; a round that then finishes is a success |
| `Barrier.InTimeMeansSuccess` | hpx_impl/hpx_barrier_witness_spike.cpp:152-170 | a success round in which no look at the clock found the deadline passed is a success |
| `Barrier.CanEndInTime` | hpx_impl/hpx_barrier_witness_spike.cpp:152-170 | for every N and polls there is such a round: a schedule that finishes as a success without the deadline passing |
| `Barrier.WatchdogCanWin` | hpx_impl/hpx_barrier_witness_spike.cpp:69-73 | a schedule in which the watchdog wins a success round, which then reports a failure |
| `Barrier.NeverStuck` | hpx_impl/hpx_barrier_witness_spike.cpp:127-144 | until the round is done some thread can move |
| `Barrier.EveryRoundEnds` | hpx_impl/hpx_barrier_witness_spike.cpp:172-182 | every schedule is bounded, and one that cannot go on has joined every launched child |
| `RetireLoops.OneByOne` | hpx_impl/hpx_synthetic_baseline.cpp:456-480 | results come back in index order; the logged submissions and retirements follow the routing and the window, and nothing is retired unless the window is full or all that is left is in flight |
| `RetireLoops.WindowIsHeld` | hpx_impl/hpx_synthetic_baseline.cpp:456-478 | whenever the loop retires a request, exactly min(window, requests not yet retired) are in flight |
| `RetireLoops.InFlightIsContiguous` | hpx_impl/hpx_synthetic_baseline.cpp:464-478 | after any number of operations of the loop the in-flight deque is one contiguous range of indices within the window, and its oldest entry is the one retired |
| `RetireLoops.LanePressure` | bench/run_hpx_python_baseline.py:187-198 | after any number of operations a lane holds at most ceil(C/L) unretired requests, and total lane loads differ by at most one |
| `RetireLoops.SweepConserves` | hpx_impl/hpx_synthetic_baseline.cpp:506-520 | a sweep loses and duplicates nothing and retires at most k |
| `RetireLoops.SweepIsOldest` | hpx_impl/hpx_synthetic_baseline.cpp:506-521 | up to some cut a sweep retires every ready request in order and keeps the others; behind it all are kept, and it lies before the end only when k were retired |
| `RetireLoops.SweepTakesTheOldest` | hpx_impl/hpx_synthetic_baseline.cpp:510-519 | a ready request stays in flight only when k others were retired |
| `RetireLoops.SweepOnce` | hpx_impl/hpx_synthetic_baseline.cpp:507-520 | the sweep loop retires the oldest ready requests, at most k, and keeps the rest in order |
| `RetireLoops.Refill` | bench/run_hpx_python_baseline.py:334-338 | one submission per retired request until the indices run out |
| `RetireLoops.BatchWait` | hpx_impl/hpx_synthetic_baseline.cpp:486-528 | for any readiness, every index is retired exactly once; each wait finds what the last sweep kept followed by the new submissions that fill the window, and retires the oldest 1..k ready ones; the loop ends |
| `RoundRobin.ShareExact` | hpx_impl/hpx_synthetic_baseline.cpp:434-454 | of n round-robin submissions each lane gets n / L, the first n % L lanes one more |
| `MultiClient.BlocksTile` | hpx_impl/hpx_synthetic_baseline.cpp:629-634 | the clients' blocks tile [0, n) in order and none is empty when n >= 1 |
| `MultiClient.BlocksAreEven` | hpx_impl/hpx_synthetic_baseline.cpp:631-634 | a block starts at floor(n*k/t), and any two blocks differ by at most one request |
| `MultiClient.WindowsSum` | bench/run_hpx_python_baseline.py:219-222 | the windows sum to max(concurrency, threads) |
| `MultiClient.WindowsAreEven` | hpx_impl/hpx_synthetic_baseline.cpp:630 | windows are at least one and differ by at most one, the wider ones first |
| `MultiClient.ThreadsInFlight` | hpx_impl/hpx_synthetic_baseline.cpp:559-607 | a run in which every client thread has one request in flight, whatever the concurrency |
| `MultiClient.InFlightHeldIff` | hpx_impl/hpx_synthetic_baseline.cpp:609-627 | every interleaving keeps the total in flight within --concurrency iff there are no more client threads than that, or no requests |
| `MultiClient.DispatchThreaded` | hpx_impl/hpx_synthetic_baseline.cpp:618-653 | with the client loops run one by one, each of the min(clients, max(1, requests)) threads dispatches its own block within its own window over the shared counter, and the merged records are those of the single client, in order |
| `MultiClient.EveryInterleavingMerges` | hpx_impl/hpx_synthetic_baseline.cpp:641-653 | however the clients interleave, once all have finished the merged records are those of the single client, in order |
| `MultiClient.EveryInterleaving` | hpx_impl/hpx_synthetic_baseline.cpp:559-607 | in every interleaving of the clients: in flight at most max(concurrency, threads), lane loads within one, done after exactly 2n steps with every block retired |
| `MultiClient.ClientHoldsItsWindow` | hpx_impl/hpx_synthetic_baseline.cpp:559-607 | in every interleaving a client retires only with min(window, its requests not yet retired) in flight |
| `ServiceSequence.StartsAgree` | hpx_impl/hpx_synthetic_baseline.cpp:152-153 | uint64 cast, product and sum give Python's masked word for every int64 seed and index |
| `ServiceSequence.ServiceSequencesAgree` | bench/service_sequence.py:23-43 | both languages choose the same service time for every seed and index |
| `ServiceSequence.DrawIsSplitmix64` | bench/service_sequence.py:38-41 | the mixed word is that of splitmix64, given as a table of shifts and factors, at seed plus index times the golden gamma modulo 2^64 |
| `ServiceSequence.HighIff` | bench/service_sequence.py:42-43 | an index gets the high service time iff its word is below ceil(p_high * 2^64), else the low one |
| `ServiceSequence.HighShare` | hpx_impl/hpx_synthetic_baseline.cpp:157-158 | of the 2^64 indices of one seed exactly ceil(p_high * 2^64) get the high service time |
| `ServiceSequence.ShareEnds` | hpx_impl/hpx_synthetic_baseline.cpp:150-158 | the fixed pattern gives service_ms; p_high <= 0 always low, >= 1 always high; raising p_high only moves indices from low to high |
| `ServiceSequence.UnMixMix` | bench/service_sequence.py:39-41 | the inverse mixer undoes the mixer on every 64-bit word |
| `ServiceSequence.MixUnMix` | hpx_impl/hpx_synthetic_baseline.cpp:154-156 | the mixer undoes the inverse mixer on every 64-bit word |
| `ServiceSequence.IndexRecovered` | bench/service_sequence.py:38-41 | seed and mixed word give the index back |
| `ServiceSequence.WordHasIndex` | bench/service_sequence.py:38-41 | every 64-bit word is drawn, by the index computed back from it |
| `ServiceSequence.DistinctDraws` | bench/service_sequence.py:38-41 | for one seed, different indices below 2^64 give different words |
| `Bits.XorShiftInverse` | hpx_impl/hpx_synthetic_baseline.cpp:154-156 | z ^ (z >> s) is invertible on n-bit words when 3s >= n |
| `Bits.ShrIsDivision` | bench/service_sequence.py:39-41 | the model's shift by k is floor division by 2^k, which is what >> is on non-negative integers |
| `RequestIds.ParseRecoversIndex` | hpx_impl/hpx_synthetic_baseline.cpp:163-171 | parsing a request's id gives its index if an int holds it, else -1 |
| `RequestIds.ParseIsIndexOrMinusOne` | hpx_impl/hpx_synthetic_baseline.cpp:163-171 | whatever the string, the result is -1 or an index; without a dash it is -1 |
| `RequestIds.IdOrderIsIndexOrder` | hpx_impl/hpx_synthetic_baseline.cpp:443-445 | below 10^6 ids compare like indices |
| `RequestIds.RangeUnsorted` | hpx_impl/hpx_synthetic_baseline.cpp:443-445 | with more than 10^6 requests submission order is not id order: "req-1000000" sorts before "req-999999" |
| `RequestIds.SortRestoresOrderIff` | hpx_impl/hpx_synthetic_baseline.cpp:887-891 | records 0..n-1 sorted by id are in submission order iff n <= 10^6 |
| `Percentile.DiagPercentile` | hpx_impl/hpx_synthetic_baseline.cpp:679-690 | the vector ends up sorted, and the result is the Python percentile of it, 0 if empty |
| `Percentile.OrderDoesNotMatter` | bench/analyze_jsonl.py:31-37 | the percentile depends only on the multiset of values |
| `Percentile.WithinExtremes` | bench/analyze_jsonl.py:17-28 | it lies between the least and greatest value and meets them at 0 and 100 |
| `Percentile.LinearBetweenRanks` | bench/analyze_jsonl.py:23-28 | f of the way from rank k to rank k + 1 the percentile is s[k]*(1-f) + s[k+1]*f |
| `Percentile.Monotone` | bench/analyze_jsonl.py:23-28 | it never falls when q grows, within and across rank intervals |
| `Percentile.PctsAreOrdered` | bench/analyze_jsonl.py:31-37 | p50 <= p90 <= p99, all within the range of the values |
| `Inversions.EndNsInversions` | hpx_impl/hpx_task_dataflow_probe.cpp:285-294 | counts exactly the inverted pairs; zero iff end times never decrease |

## Left out

- LaneOutcomes.CancelTellsTheRow: stated for the sleep and spin modes, because for the others it is false; LaneOutcomes.CancelHonestIff gives the exact condition.
- LaneObjects.ServiceLane.Service: clients interfere only through cancel() during a chunk; all other interleavings are covered by the step system.
- LaneObjects.CancelToken.BeginService: requires that no stop is requested, because the lane calls it once, on the request it has just popped (`LaneInvariant.Held` at `Popped`); a second call would forget the stop.
- LaneObjects.ServiceLane.Run: states the loop after stop_, with cancels of the request in service as the only client calls; waiting, waking and other concurrent calls are in the step system.
- MultiClient.DispatchThreaded: runs the client loops one after the other; MultiClient.EveryInterleaving and MultiClient.EveryInterleavingMerges cover their interleavings.
- Barrier.InTimeMeansSuccess: needs the deadline not to pass at any look at the clock; Barrier.SuccessIff gives the exact condition.
- Submissions that race with the lane's destruction are outside the code's contract; the machine admits none after stop_ is set.
- The text of error messages, actor ids as random strings, and the receive time a client stamps on a row.
- The order in which Python's `Engine.wait` lists ready futures; a sweep takes them in the order of the C++ in-flight list.
- Real time: sleep overshoot, spin loops, throughput. Clock readings are only known not to decrease.
- IEEE rounding in the draw, the percentiles and the conversion to milliseconds.
- Memory ordering below sequential consistency, and the inside of mutexes, condition variables, promises and atomics.
- 32-bit wrap-around of the round-robin counters, which count int-bounded submissions from zero.
- submit_all_get_all and the Python batch dispatch, which have no window.
- Command-line parsing, JSONL and diagnostic file output, workload names.
- RuntimeLane, RuntimeCancelToken, Engine, the op registry and the endpoint bridge are not part of this model.
