# Crowd-map server: models and proofs

This project models the query path of the crowd-map server and what feeds and measures it, and proves what each part
promises. `dafny verify dfyconfig.toml` checks all of it.

The server takes text lines from phones: positions, zone reports and questions. Questions go to one of two thread
pools; a controller sets each pool's thread count and admission cap every 10 ms from queueing theory; a router answers
from a cache and refreshes it from external services; a density grid counts who was where in the last five minutes.
A load generator measures all that with log-linear histograms.

- `PoolProtocol.dfy`, `ClassPool.dfy`, `ChunkQueue.dfy`: the thread pool. Its concurrent protocol is a step machine with
  undelivered notifications as state; every critical section of the class is one protocol step; its queue is linked
  blocks on the heap.
- `FdOwnership.dfy`: who owns which descriptor, over a kernel table that hands numbers out again.
- `QueueMath.dfy`, `PoolController.dfy`, `PoolDecision.dfy`, `ServiceMean.dfy`, `ServiceVariance.dfy`,
  `RestoreAndCut.dfy`: Erlang B and C, the server search, the controller's tick and its invariants over runs, what its
  numbers amount to, its two estimates, and one run told in full.
- `CacheManager.dfy`, `CongestionRouter.dfy`: the LRU/TTL cache against its call history, and the single-flight refresh
  protocol.
- `DensityGrid.dfy`: striped cells against flat lists of events.
- `Framing.dfy`, `Wire.dfy`, `Response.dfy`, `Text.dfy`: bytes to lines, lines to messages, replies to readings.
- `Histogram.dfy`, `LoadGenerator.dfy`: quantiles from buckets, and the accounting of every request.
- `RealFacts.dfy`, `Clock.dfy`, `Options.dfy`: shared facts and types.

Doubles are real numbers. `exp`, `ln` and `sqrt` are parameters: what the proofs use of the first two is stated in
`RealFacts.IsExp`, `RealFacts.IsLn` and, for one theorem, `RealFacts.IsNaturalLn`. Clock readings, arrivals, what the
network does and what external services answer are inputs without restriction, except that clocks do not run backwards.

## What the code does not do

Where a promise fails, the code is modelled as it is, the failing input is given, and the exact condition is proved.

- The cap of 32 lines per `recv` can leave a complete line in the buffer until more bytes come, and loses it when the
  peer closes: `Framing.LastLineWaits` (33 short lines in one segment). Every line has been handed on if and only if
  the backlog of newlines over 32 a chunk is zero: `Framing.AllHandedIff`.
- A cell's cleanup stops at the first unexpired event, so an expired event restored behind a newer one stays:
  `DensityGrid.HiddenStays`. It is exact if and only if nothing expired is hidden: `DensityGrid.CleanupExactIff`. Still
  no event outlives the first cleanup 301 s after it was put in: `DensityGrid.NoEventOutlives`.
- The load generator takes a reply that names request 0 (or no number at all) for an empty slot:
  `LoadGenerator.NonNumberNamesZero`, `LoadGenerator.ZeroReplyOverbooks`. Its books stay in order if and only if a line
  does not do that while a slot is empty: `LoadGenerator.Worker.HandleLine`.
- Cell keys collide beyond 32-bit indices, in latitude and longitude: `DensityGrid.KeyCollides`. Two cells share a key
  if and only if both indices agree in their low 32 bits: `DensityGrid.SameKeyIff`.
- A snapshot taken between a worker's stores can make the variance estimate negative before it is clipped:
  `ServiceVariance.TornSnapshotGoesNegative`. The clip changes nothing if and only if the smoothed sums obey
  s1 * s1 <= n * s2: `ServiceVariance.UnclippedIff`. With every snapshot between jobs they do at every tick of every
  run: `ServiceVariance.NeverClipped`.
- A restore of c_max and the next cut can fall into the same tick: `RestoreAndCut.RestoreAndCutInOneTick` gives a run of
  seven ticks from the start, with consistent counters and the default parameters. A due restore is seen after its tick
  if and only if no cut is due in it: `PoolController.RestoreSeenIff`. Both events are bounded over runs by
  `PoolController.CutIsTemporary` and `PoolController.LimitComesBack`.
- The queue length asked for against random variation can fall where utilization reaches saturation:
  `QueueMath.KFloorFalls`. More utilization never asks for less if and only if it stays below saturation (or within
  eps) or the formula has not exceeded the bound before: `QueueMath.KFloorRisesIff`. What the controller does with it
  is exact all the same: `PoolController.WantIsExact`.

Comments in the source that the code does not follow: the histogram's error is called about 1.6 percent
(server/tools/loadgen.cpp:157) and is at most 1/128; the router's fallback comment speaks of a default TTL of 30 s
(server/CongestionRouter.h:180) while the server constructs its cache with 60 s; the enqueue comment says that a shed
query without a stale entry gets no reply (server/EpollServer.cpp:370), which holds in production builds only. The model
follows the code.

## Model

| member | source | states |
|---|---|---|
| PoolProtocol.InvKept | server/ClassPool.cpp:57-160 | every step of any thread keeps counters, job fates, deadlines, wake-ups and shutdown phases consistent |
| PoolProtocol.ReachableInv | server/ClassPool.cpp:16-160 | the invariant holds after every interleaving from every initial pool |
| PoolProtocol.WorkConservation | server/ClassPool.cpp:57-141 | with no notification under way at least min(active, queue length) active threads are awake; if one sleeps, every queued job has a ready thread of its own |
| PoolProtocol.PoolAccounting | server/ClassPool.cpp:89-110 | offered = shed + dequeued + queued; dequeued = done + expired + in flight with at most one job a thread; the queue is in enqueue order, no longer than the largest cap used |
| PoolProtocol.DeadlineDecides | server/ClassPool.cpp:142-146 | in clock times and over every run: with a positive deadline every served job was taken at most that long after it was queued and every expired one later than that; with none, nothing expires |
| PoolProtocol.ActiveTakesOldest | server/ClassPool.cpp:119-140 | only an active thread of a running pool takes a job, and it takes the oldest |
| PoolProtocol.EveryJobOnce | server/ClassPool.cpp:57-157 | each accepted job is served, late, held by a worker or queued, exactly as often as it was accepted |
| PoolProtocol.CountersGrow | server/ClassPool.cpp:89-110 | along any run no counter, clock or recorded largest cap decreases, and the logs of accepted, served and late jobs are only appended to |
| PoolProtocol.SnapshotSpans | server/ClassPool.cpp:89-110 | when the reads under the mutex and those after it are any number of steps apart, offered = shed + dequeued + queued still holds, and done + expired, each counted anywhere in between, is at least dequeued less one job a thread and at most what has been dequeued by the end |
| PoolProtocol.ShutdownProgress | server/ClassPool.cpp:41-48 | after the destructor's notifications every remaining thread can go on, each of its steps brings the joins nearer, and no step of anyone sets them back |
| PoolProtocol.ShutdownFinishes | server/ClassPool.cpp:41-48 | every run from there has at most as many worker steps as the measure allows, a run with that many leaves every thread exited, and until then each remaining thread can go on |
| ClassPool.ClassPool.constructor | server/ClassPool.cpp:16-29 | starts in the protocol's initial state; from here on every method keeps the object where some run of the protocol leads |
| ClassPool.ClassPool.Deliver | server/ClassPool.cpp:57-83 | a notification reaching the waiting threads is one protocol step, whichever thread the kernel picks |
| ClassPool.ClassPool.TryEnqueue | server/ClassPool.cpp:57-71 | accepts exactly when the queue is shorter than the cap, and takes the protocol's enqueue step |
| ClassPool.ClassPool.SetActiveThreads | server/ClassPool.cpp:73-83 | clamps, and owes the two notifications only on a change |
| ClassPool.ClassPool.SetCapacity | server/ClassPool.cpp:85-87 | the cap is at least 1; queued jobs stay |
| ClassPool.ClassPool.LockPass | server/ClassPool.cpp:119-140 | one pass under the mutex: exits when stopping, parks beyond the active count, waits on an empty queue, else takes the oldest job |
| ClassPool.ClassPool.TestDeadline | server/ClassPool.cpp:142-146 | a job is late exactly when a positive deadline is less than its clock time in the queue; a late one is counted, another is served |
| ClassPool.ClassPool.RecordService | server/ClassPool.cpp:146-158 | the worker's sums grow by one job, its service time in seconds, the square of that and its wait; they equal those of the log of served jobs |
| ClassPool.ClassPool.EndExpiry | server/ClassPool.cpp:143-145 | a late job is not counted a second time |
| ClassPool.ClassPool.SnapshotLocked | server/ClassPool.cpp:91-98 | the part read under the mutex is the protocol's counters and queue length at that instant |
| ClassPool.ClassPool.ReadWorker | server/ClassPool.cpp:100-106 | one worker's stores are added at the instant of their reading |
| ClassPool.TornReads | server/ClassPool.cpp:99-106 | whatever the instants at which the workers are read one after the other, the sums lie between those of the first and the last instant |
| ClassPool.ClassPool.SnapshotRest | server/ClassPool.cpp:99-109 | the part read later leaves the first alone; with nothing between its reads it sums the workers' stores to the sums of the log of served jobs |
| ClassPool.ClassPool.Snapshot | server/ClassPool.cpp:89-110 | with nothing in between, the whole snapshot is that of one instant: offered = shed + dequeued + queued, and done + expired is what was dequeued less at most one job a thread |
| ClassPool.ClassPool.Accounts | server/ClassPool.cpp:57-157 | the object's own counters, queue order and job logs balance as the protocol's do, every accepted job being in exactly one place |
| ClassPool.ClassPool.Conserves | server/ClassPool.cpp:57-141 | with no notification under way the object has at least min(active, queue length) active threads awake, and no queued job is left to sleeping threads |
| ClassPool.ClassPool.JoinsEnd | server/ClassPool.cpp:41-48 | once the object's destructor has notified, as many worker steps as the measure of its threads end them all |
| ClassPool.ClassPool.RequestStop | server/ClassPool.cpp:41-45 | stopping is one protocol step under the mutex |
| ClassPool.ClassPool.Drain | server/ClassPool.cpp:50-54 | the destructor empties the queue and closes exactly the valid descriptors of the jobs left, in queue order |
| ClassPool.OwnedFdsAre | server/ClassPool.cpp:50-54 | the descriptors closed are exactly the jobs' valid ones, place by place when every job has one |
| ChunkQueue.ChunkQueue.constructor | server/ChunkQueue.h:22 | an empty queue owns no block |
| ChunkQueue.ChunkQueue.Push | server/ChunkQueue.h:35-47 | appends to the queued sequence, whatever blocks are linked |
| ChunkQueue.ChunkQueue.Pop | server/ChunkQueue.h:49-69 | takes the oldest element or reports emptiness; a drained queue keeps one block |
| ChunkQueue.ChunkQueue.Grab | server/ChunkQueue.h:81-90 | gives an unlinked block, the spare one first, and counts allocations |
| ChunkQueue.ChunkQueue.Release | server/ChunkQueue.h:92-100 | keeps one spare block and frees the others |
| ChunkQueue.ChunkQueue.BlockCount | server/ChunkQueue.h:5-16 | blocks = ceil((headIdx + size) / N) plus at most one spare, 1 after draining; allocations at most ceil(pushes / N) |
| FdOwnership.InvKept | server/EpollServer.cpp:113-161 | every accept, dup, send and close keeps descriptor ownership disjoint and correct |
| FdOwnership.RepliesReachTheAsker | server/EpollServer.cpp:346-374 | over all runs with number reuse every send reaches the connection its query came from |
| FdOwnership.EachDupClosedOnce | server/QueryService.cpp:106-140 | a dup is open until it is closed exactly once, and no open descriptor is without an owner |
| FdOwnership.WhoReplies | server/EpollServer.cpp:346-374 | refusing, a failed dup and serving each write one reply to the connection that asked, and no other step writes |
| FdOwnership.WhoOpens | server/EpollServer.cpp:113-161 | what accepting and duplicating open and register, and what closing a dup frees |
| FdOwnership.DrainFinishes | server/ClassPool.cpp:48-54 | after the joins the destructor can close each remaining dup, and with none left every query's dup was closed once |
| FdOwnership.DrainCloses | server/ClassPool.cpp:48-54 | the run that closes the remaining dups one after the other exists from every stopped world, ends with none left, every dup closed exactly once, and only client sockets open |
| QueueMath.ErlangBStep | server/QueueMath.h:17-18 | the closed form (a^c/c!) / sum a^k/k! satisfies the loop's recursion |
| QueueMath.ErlangBLoop | server/QueueMath.h:17-18 | the loop computes the closed form |
| QueueMath.CarriedLoad | server/QueueMath.h:13-21 | a (1 - B) never exceeds the number of servers |
| QueueMath.ErlangBDecreasing | server/QueueMath.h:17-18 | one more server never blocks more |
| QueueMath.ErlangBIncreasingInLoad | server/QueueMath.h:17-18 | more load never blocks less |
| QueueMath.WaitProbFromBlocking | server/QueueMath.h:19-20 | the last line turns Erlang B into the textbook Erlang C |
| QueueMath.WaitProbMeetsSaturation | server/QueueMath.h:16-20 | the formula meets the a >= c branch at 1 |
| QueueMath.WaitProbRange | server/QueueMath.h:13-21 | the waiting probability lies in [0, 1] |
| QueueMath.WaitProbDecreasing | server/QueueMath.h:13-21 | it does not rise with servers |
| QueueMath.WaitProbIncreasingInLoad | server/QueueMath.h:13-21 | it does not fall with load |
| QueueMath.ErlangC | server/QueueMath.h:13-21 | erlangC returns the closed form of the waiting probability |
| QueueMath.PWaitGt | server/QueueMath.h:27-35 | pWaitGt returns the corrected tail, in every branch |
| QueueMath.WaitTailIs | server/QueueMath.h:27-35 | the tail in one formula: 0 without arrivals, 1 at saturation, else C(c, a) exp(-(c mu - lam) t / v) with v = max(0.001, (ca2 + cs2) / 2) |
| QueueMath.WaitTailRisesWithVariation | server/QueueMath.h:27-35 | the tail does not shrink when arrivals or services vary more |
| QueueMath.CorrectionStretches | server/QueueMath.h:32-34 | the correction stretches the conditional wait: the corrected tail at v t is the uncorrected tail of M/M/c at t |
| QueueMath.WaitTailDecreasing | server/QueueMath.h:27-35 | the tail does not grow with servers |
| QueueMath.WaitTailIncreasingInRate | server/QueueMath.h:27-35 | the tail does not shrink with the arrival rate |
| QueueMath.FeasibleUpward | server/QueueMath.h:43-47 | a count that meets both targets keeps meeting them when servers are added |
| QueueMath.FeasibleForLowerRate | server/QueueMath.h:43-47 | servers that suffice for a rate suffice for smaller ones |
| QueueMath.FeasibleIs | server/QueueMath.h:43-47 | a count is feasible exactly when the load is within rhoMax c mu and the tail within its target |
| QueueMath.MinServers | server/QueueMath.h:38-49 | the loop returns the least feasible count up to cMax, else cMax |
| QueueMath.SearchIsExact | server/QueueMath.h:37-49 | a count up to cMax is feasible if and only if it is at least the result and the result is |
| QueueMath.SearchMonotoneInRate | server/QueueMath.h:38-49 | the result never falls as the rate grows |
| QueueMath.SearchMonotoneInVariation | server/QueueMath.h:38-49 | the result never falls as the variation grows |
| QueueMath.PyErlang | server/experiments/expcommon.py:294-303 | erlang_c computes the same waiting probability, for any arguments |
| QueueMath.PyPWaitGt | server/experiments/expcommon.py:306-311 | p_wait_gt computes the uncorrected tail, for any arguments it does not raise on |
| QueueMath.MinServersErlang | server/experiments/expcommon.py:314-320 | the Python loop returns the least feasible count, or None when there is none |
| QueueMath.SearchesAgree | server/experiments/expcommon.py:314-320 | with unit variations both searches give the same count whenever Python finds one within cMax |
| QueueMath.KFloorRisesIff | server/QueueMath.h:53-57 | from one utilization to a larger one the asked length does not fall, if and only if the larger is within eps or below saturation or the first length is at most the saturation bound |
| QueueMath.KFloorFalls | server/QueueMath.h:53-57 | at half load a large variation asks for more than at saturation |
| QueueMath.KFloorBrackets | server/QueueMath.h:53-66 | for M/M/1 below saturation the approximation is never more than the exact least length for the loss target, and divided by the utilization it always meets the target |
| QueueMath.KFloorScales | server/QueueMath.h:53-57 | below saturation the asked length is proportional to the variation |
| QueueMath.KFloorMMc | server/QueueMath.h:59-66 | returns the least K with C(c, a) rho^K <= eps below saturation, for every n an if-and-only-if |
| QueueMath.TailInLogarithms | server/QueueMath.h:63-65 | the logarithmic test is the power test |
| PoolController.DefaultsValid | server/PoolController.h:29-56 | the default parameters meet what every theorem about the controller asks of them |
| PoolController.InitInv | server/PoolController.cpp:22-31 | the initial state satisfies the controller invariant |
| PoolController.GainWindow | server/PoolController.cpp:223-228 | the window's divisor is positive, and it lies between its bounds |
| PoolDecision.WindowBeatsNoise | server/PoolController.cpp:223-228 | over the window gainZ Poisson deviations of the completions stay within the gain asked for, unless it is cut at 5 s, and it is no longer than that takes, unless at its minimum |
| PoolController.PreparedLimits | server/PoolController.cpp:145-172 | estimates, restore and gain check keep the limit, restore it, or cut it strictly and stamp the cut |
| PoolController.DecidedKeepsInv | server/PoolController.cpp:211-253 | any decision within the limits keeps the invariant; c drops by more than one only onto a lowered limit |
| PoolController.TickKeepsInv | server/PoolController.cpp:101-256 | for every snapshot cMin <= c <= cMaxEff <= c_max, the gain fields are ordered, and the cut stamp is set exactly while the limit is lowered |
| PoolController.InvAlways | server/PoolController.cpp:101-256 | the invariant holds before and after every tick of every run |
| PoolController.CutStep | server/PoolController.cpp:147-166 | a further cut before a restore is due never moves the latest restore time away |
| PoolController.CutIsTemporary | server/PoolController.cpp:145-172 | from any cut a restore has happened within (c_max - cMin) restore periods, for every run of ticks |
| PoolController.LimitComesBack | server/PoolController.cpp:145-172 | with ticks at most gap apart some tick ends at the configured c_max within the same number of periods, each a gap longer |
| PoolController.LimitAfterTick | server/PoolController.cpp:145-172 | after a whole tick the limit is the thread count before the growth if a cut is due, else c_max if a restore is due, else what it was |
| PoolDecision.RestoreIsPatient | server/PoolController.cpp:145-151 | a limit rises only to c_max and no sooner than cMaxRestoreSec after the cut |
| PoolController.RestoreSeenIff | server/PoolController.cpp:145-172 | a due restore is seen after its tick if and only if no cut is due in it |
| RestoreAndCut.RestoreAndCutInOneTick | server/PoolController.cpp:101-256 | a run of seven ticks from the initial state, under the default parameters and with counters and thread counts that fit together, whose last tick finds a restore and a cut due and ends at a limit of 1 of 4, whatever exp, ln and sqrt are |
| PoolController.HoldTick | server/PoolController.cpp:231-245 | a hold goes on only through ticks that want fewer threads and see a short queue; c falls without a cut only by one and only after the hold |
| PoolController.ShrinkWaits | server/PoolController.cpp:231-245 | over every run, each such fall follows at least the hold time of nothing but short ticks |
| PoolController.ProbeTick | server/PoolController.cpp:153-172 | a gain probe is carried on with the shortest queue seen, or started by a growth |
| PoolController.WindowAlways | server/PoolController.cpp:211-228 | at every point of every run the window of a probe under way is the one computed from its own growth |
| PoolController.CutIsEarned | server/PoolController.cpp:153-172 | over every run, the limit is lowered only after the whole window computed for some growth without one empty queue, and only if completions fall short of the expected gain |
| PoolController.CapBounds | server/PoolController.cpp:13-17 | the dynamic cap is what waitMaxSec of work fills, within its bounds |
| PoolDecision.CapIs | server/PoolController.cpp:13-17 | the cap is the whole part of c mu waitMaxSec, no less than kMin and no more than kMax; a class without dynamic cap keeps its fixed one |
| PoolController.CapRises | server/PoolController.cpp:197-199 | one more thread never lowers the cap |
| PoolController.CapSufficesUpward | server/PoolController.cpp:202-208 | a count whose cap absorbs random variation still does with one thread more, saturation included |
| PoolController.WantIsExact | server/PoolController.cpp:201-209 | a count from the base up to the limit suffices if and only if it is at least the decided one and that one does |
| PoolController.Controller.constructor | server/PoolController.cpp:22-31 | one valid state for each class |
| PoolController.Controller.RaiseWant | server/PoolController.cpp:201-209 | stops at the least count whose asked queue length does not exceed its cap, or at the limit |
| PoolController.Controller.Decide | server/PoolController.cpp:174-209 | the decision is the larger demand, clamped, then raised as far as needed |
| PoolDecision.SlopeIs | server/PoolController.cpp:181-186 | the slope counts only beyond slopeZ deviations of its Poisson noise |
| PoolDecision.BurstDrains | server/PoolController.cpp:186-195 | over the target the fluid part is the fewest threads whose added capacity clears the predicted excess and the growth within drainSec, at most a million more; within it, none |
| PoolDecision.ThreadsAfterTick | server/PoolController.cpp:211-253 | after a tick: what is wanted when that is not less, else one thread less after a full hold through a short queue, never above the limit; unchanged when not adaptive |
| PoolDecision.ProbeAfterGrowth | server/PoolController.cpp:211-230 | a growth starts the probe at this tick's clock and completions; one still within its window keeps the thread count and rate it began with |
| PoolController.Controller.TickPrimed | server/PoolController.cpp:110-253 | the statements of a tick compose to the tick function |
| PoolController.Controller.TickClass | server/PoolController.cpp:101-256 | one tick yields that state, thread count and cap, and keeps every class valid |
| ServiceMean.AddedBetween | server/ClassPool.cpp:147-157 | what a stretch of the log adds lies between lo and hi a job, when every service took between lo and hi seconds |
| ServiceMean.EstimatedBetween | server/PoolController.cpp:130-138 | an estimate lies where the services do; without one the mean stays and the sums stay between or start anew |
| ServiceMean.EstimatesMatchSums | server/PoolController.cpp:130-135 | mean times count and (1 + cs2) mean squared times count give back the smoothed sums |
| ServiceMean.IdleStartsAnew | server/PoolController.cpp:130-138 | without an estimate the variation stays, and the sums start anew exactly when the count has all but vanished |
| ServiceMean.SmoothingForgets | server/PoolController.cpp:119-129 | one step keeps of each distance to what was just seen exactly the share exp(-dt / tau), of the slope's 1 - alpha |
| ServiceMean.MeanAlways | server/PoolController.cpp:101-256 | over every run from the start with snapshots between jobs: if all services took between lo and hi seconds, from the first estimate on the mean does and the rate is between 1/hi and 1/lo; before it the rate is the configured one |
| ServiceVariance.ConeAdd | server/ClassPool.cpp:148-156 | Cauchy-Schwarz for counts and sums is kept by adding |
| ServiceVariance.AddedInCone | server/ClassPool.cpp:147-157 | it holds for the service times of any stretch of the log |
| ServiceVariance.SmoothingInCone | server/PoolController.cpp:125-129 | exponential mixing keeps it when both snapshots lie between jobs |
| ServiceVariance.VarianceNonNegative | server/PoolController.cpp:130-138 | then the estimate equals its unclipped value, which is not negative |
| ServiceVariance.UnclippedIff | server/PoolController.cpp:130-135 | whenever an estimate is made, its unclipped value is not negative if and only if s1 * s1 <= n * s2 for the smoothed sums |
| ServiceVariance.TickIsSound | server/PoolController.cpp:101-256 | a whole tick between two snapshots at job boundaries keeps the inequality and makes an estimate that is not clipped |
| ServiceVariance.NeverClipped | server/PoolController.cpp:101-256 | over every run from the initial state with all snapshots at job boundaries, no tick's estimate is clipped |
| ServiceVariance.TornSnapshotGoesNegative | server/ClassPool.cpp:99-106 | a snapshot that misses one worker's count but has its times takes a sound state to an estimate that is negative before it is clipped to 0 |
| CacheManager.TakeRemove | server/CacheManager.h:66-82 | moving to the front and cutting commute |
| CacheManager.TouchOrder | server/CacheManager.h:37-40 | what a touch does to the list of most recent zones |
| CacheManager.SetMatches | server/CacheManager.h:66-82 | a set keeps cache and history in agreement, evictions included |
| CacheManager.GetMatches | server/CacheManager.h:25-61 | so does a get, and a stale read changes nothing |
| CacheManager.CacheIsHistory | server/CacheManager.h:25-101 | the order is the effective touches without repetition, most recent first, cut at maxSize; the entries are those zones' last sets; a get hits if and only if its zone is among them and fresh |
| CacheManager.Cache.constructor | server/CacheManager.h:22-23 | an empty cache has an empty history, and is ready for use exactly when its size is at least 1 |
| CacheManager.Cache.Get | server/CacheManager.h:25-44 | a stored zone is hit exactly until ttlSec + 1 seconds have passed, returns the last value set and becomes most recent; a miss, expired or absent, changes nothing |
| CacheManager.Cache.GetStale | server/CacheManager.h:50-61 | returns a stored result exactly until maxAge + 1 seconds have passed, expired or not, and leaves order and map alone |
| CacheManager.Cache.Set | server/CacheManager.h:66-82 | the zone is first and holds the new entry under its own or the default TTL; other entries stay, but a new zone in a full cache drops the least recent; the class stays in step with its history |
| CacheManager.Cache.EvictIfNeeded | server/CacheManager.h:95-101 | keeps exactly the maxSize - 1 most recent zones, list and map together |
| CacheManager.Cache.MoveToFront | server/CacheManager.h:37-40 | the stored iterator erases exactly the zone's node |
| CongestionRouter.ClaimsKept | server/CongestionRouter.h:84-157 | every step keeps one owner a zone and the inflight set equal to queued plus owned zones |
| CongestionRouter.LogsKept | server/CongestionRouter.h:160-187 | every step keeps the rounds of every zone closed in order and spaced |
| CongestionRouter.InvAlways | server/CongestionRouter.h:65-187 | the protocol invariant holds after every interleaving |
| CongestionRouter.SingleFlight | server/CongestionRouter.h:84-153 | inflight is exactly queued or owned, never both; no zone is queued twice; at most 2000 are queued; no two threads fetch one zone; with the I/O thread only it fetches |
| CongestionRouter.NoStampede | server/CongestionRouter.h:160-187 | a later round of a zone calls clients only after the earlier one has stored, and only when that entry has expired or was evicted |
| CongestionRouter.RateBound | server/CongestionRouter.h:160-190 | rounds of a zone that stays cached are at least min(TTL, 10) + 1 s apart, however many queries ask |
| CongestionRouter.EvictionIsLru | server/CacheManager.h:95-101 | an entry leaves only a full cache, as its least recent, when another zone is stored |
| CongestionRouter.FewZonesNeverLost | server/CongestionRouter.h:191-193 | with no more zones in play than the cache holds nothing is ever evicted |
| CongestionRouter.RoundEnds | server/CongestionRouter.h:94-108 | each step of a busy thread brings it nearer to giving up its zone, whatever the others do |
| CongestionRouter.SubmitAsks | server/CongestionRouter.h:84-92 | in every run, after a query that missed has asked, its zone is queued or owned, unless 2000 refreshes were waiting |
| CongestionRouter.QueueMovesUp | server/CongestionRouter.h:94-108 | whatever happens, a queued refresh moves up one place with every refresh taken |
| CongestionRouter.RefreshHasItsTurn | server/CongestionRouter.h:94-108 | when as many refreshes have been taken as were ahead, the I/O thread takes this one, asks the cache again, and calls clients if and only if there is no fresh entry |
| CongestionRouter.StaleOrIs | server/CongestionRouter.h:72-74 | a stale answer is the stored result until 301 s after it was stored, else the calculation |
| CongestionRouter.Router.constructor | server/CongestionRouter.h:27-37 | a new router with an empty cache is an initial world of the protocol |
| CongestionRouter.Router.InflightIsExact | server/CongestionRouter.h:84-153 | a router that mirrors a world led to from an initial one has exactly the queued and owned zones in its inflight set |
| CongestionRouter.Router.LookInCache | server/CongestionRouter.h:68 | the first look is the protocol's lookup step: a hit ends the query, a miss goes on |
| CongestionRouter.Router.SubmitRefresh | server/CongestionRouter.h:84-92 | with 2000 queued or the zone in flight nothing changes; else the task is queued last and its zone marked; the call is a run of the protocol for its thread |
| CongestionRouter.Router.FetchAndStore | server/CongestionRouter.h:160-187 | after the second cache check the first valid client's answer is stored under the default TTL, else the calculation under 10 s; the call is a run of the protocol for its thread |
| CongestionRouter.Router.IoTurn | server/CongestionRouter.h:94-108 | takes the oldest refresh, fetches it, and then releases its zone; the call is a run of the protocol for its thread |
| CongestionRouter.Router.AnswerWithout | server/CongestionRouter.h:72-74 | a stale entry of at most 300 s, else the calculation, and the order of use is unchanged; the call is a run of the protocol for its thread |
| CongestionRouter.Router.ResolveAsync | server/CongestionRouter.h:65-75 | a miss with fewer than 2000 queued leaves the zone in flight, and its task queued if it was not before; the answer is stale or calculated without calling a client; the call is a run of the protocol for its thread |
| CongestionRouter.Router.ResolveSync | server/CongestionRouter.h:118-157 | whoever claims the zone fetches, the others answer without, and the claim is given up on every path; the call is a run of the protocol for its thread |
| DensityGrid.GridIndexIs | server/SpatialHash.h:15-18 | the index counts the whole cells of 0.001 degrees below the coordinate |
| DensityGrid.KeyParts | server/SpatialHash.h:15-22 | the key's lower 32 bits are the longitude's, the upper the latitude's |
| DensityGrid.SameKeyIff | server/SpatialHash.h:15-22 | two cells share the 64-bit key if and only if both their indices agree modulo 2^32 |
| DensityGrid.KeyInjective | server/SpatialHash.h:15-22 | packing loses nothing when all indices fit into 32 bits |
| DensityGrid.KeyCollides | server/SpatialHash.h:15-22 | index 2^32 in latitude or in longitude gets the key of index 0 |
| DensityGrid.NearIff | server/SpatialDensityEngine.h:149-153 | whatever the indices, a stored cell is counted exactly when both its indices are within one of the place's modulo 2^32 |
| DensityGrid.NearIsNeighbours | server/SpatialDensityEngine.h:149-153 | with 32-bit indices a stored cell is counted exactly when it is the place's cell or one of its eight neighbours |
| DensityGrid.NineDistinct | server/SpatialDensityEngine.h:149-153 | the nine visited keys are distinct, whatever the indices |
| DensityGrid.StepIndex | server/SpatialDensityEngine.h:149-153 | stepping one cell size moves the index by exactly one |
| DensityGrid.ExpiredIs | server/GridZone.h:40-50 | an event expires 301 s after its time |
| DensityGrid.CleanupExactIff | server/GridZone.h:40-50 | cleanup leaves exactly the unexpired events if and only if no expired one stands behind an unexpired one |
| DensityGrid.SortedHidesNothing | server/GridZone.h:40-50 | with times in order it is exact |
| DensityGrid.HiddenStays | server/GridZone.h:26-32 | a restored older event can stay beyond the window |
| DensityGrid.GridZone.Update | server/GridZone.h:22-32 | appends, which also serves for restored events |
| DensityGrid.GridZone.UpdateBle | server/GridZone.h:35-38 | appends and then cleans the Bluetooth window |
| DensityGrid.GridZone.Cleanup | server/GridZone.h:40-50 | the loop drops the expired prefix |
| DensityGrid.GridZone.CleanupBle | server/GridZone.h:52-62 | the same for Bluetooth counts |
| DensityGrid.GridZone.GetMaxBleCount | server/GridZone.h:69-75 | the largest count, 0 without any |
| DensityGrid.CleanIsDrop | server/SpatialDensityEngine.h:193-206 | cleaning the flat list is, cell by cell, the cells' own cleanup |
| DensityGrid.OldEventsGo | server/GridZone.h:40-50 | nothing put in 301 s ago survives a cleanup, in whatever order the times are |
| DensityGrid.CleanKeepsYoung | server/GridZone.h:40-50 | no event younger than 301 s is ever cleaned away |
| DensityGrid.RestorableAre | server/SpatialDensityEngine.h:94-113 | exactly the saved records aged 0 to 300 s become events, each with its own age |
| DensityGrid.NoEventOutlives | server/SpatialDensityEngine.h:193-206 | the same over every run of recordings, restores and cleanups |
| DensityGrid.WeightedIsMean | server/SpatialDensityEngine.h:167-173 | the corrected density is the mean weighted 6 to 4, cut to a whole number, and lies between count and Bluetooth maximum |
| DensityGrid.Engine.constructor | server/SpatialDensityEngine.h:59-64 | 1024 empty stripes stand for the empty list |
| DensityGrid.Engine.RecordLocation | server/SpatialDensityEngine.h:116-128 | adds one event to the flat list, and with a positive count one Bluetooth event whose cell is cleaned |
| DensityGrid.Engine.RestoreFromRedis | server/SpatialDensityEngine.h:94-113 | puts back exactly the events aged 0 to 300 s, with their own times |
| DensityGrid.Engine.GlobalCleanup | server/SpatialDensityEngine.h:193-206 | cleans the flat lists, which are those of the engine's own history; keeps every event younger than 301 s and leaves none put in 301 s ago |
| DensityGrid.Engine.GetDensity | server/SpatialDensityEngine.h:145-174 | counts each stored event of the nine cells once and corrects by their largest Bluetooth count |
| DensityGrid.Engine.LookUp | server/SpatialDensityEngine.h:153-163 | a cell found in its own stripe holds all events of its key |
| Framing.Framed | server/EpollServer.cpp:217-239 | consumed bytes + inbuf = bytes received; the lines handed on are those of the consumed bytes; inbuf of an open connection is at most 65536 bytes |
| Framing.LineEndings | server/EpollServer.cpp:229-236 | a line ends with a newline, and one carriage return before it is not part of the line |
| Framing.ClosesExactly | server/EpollServer.cpp:213-250 | an open connection closes at end of stream, on an error, and on more than 65536 waiting bytes, and on nothing else |
| Framing.HandedIsPrefix | server/EpollServer.cpp:229-239 | the handed lines and the lines left in inbuf are the stream's lines in order |
| Framing.SplittingDoesNotMatter | server/EpollServer.cpp:209-252 | two connections with the same bytes in different chunks hand on prefixes of one list, and agree once drained |
| Framing.BacklogIsLines | server/EpollServer.cpp:229-239 | the lines left are what the cap of 32 a recv leaves |
| Framing.AllHandedIff | server/EpollServer.cpp:229-239 | all received lines are handed on if and only if that backlog is zero |
| Framing.SmallChunksLeaveNothing | server/EpollServer.cpp:229-239 | chunks of at most 32 newlines leave none |
| Framing.LastLineWaits | server/EpollServer.cpp:229-245 | 33 short lines in one chunk leave one behind, and lose it at end of stream |
| Framing.Connection.ParseLines | server/EpollServer.cpp:229-239 | the loop hands on the first 32 complete lines, stripped of a carriage return, and erases them |
| Framing.Connection.OnResult | server/EpollServer.cpp:213-250 | each recv result leads to the next state of the history; reading goes on unless it would block or the connection closed |
| Framing.Connection.HandleRead | server/EpollServer.cpp:209-252 | the loop uses results up to the first that stops it, and the connection is that of its history |
| Text.AtofFixed | server/EpollServer.cpp:303-304 | reading back a fixed-point number gives exactly the printed value |
| Text.AtofNumber | server/EpollServer.cpp:303-304 | a fixed-point number followed by any text reads as that number times the power of ten of the text's exponent part, if it has one |
| Text.AtofDouble | server/EpollServer.cpp:303-304 | a double printed the way Kotlin does, in either notation, reads back as its decimal value |
| Text.FromCharsPrint | server/EpollServer.cpp:302 | reading back a printed integer that fits gives it, whatever non-digit follows |
| Text.FromCharsRefuses | server/EpollServer.cpp:302 | a number that does not fit, and text that is no number, leave the variable as it was |
| Wire.ParseLine | server/EpollServer.cpp:254-346 | the search for commas by position gives the meaning of the comma-separated parts: user, latitude, longitude, then the optional fields; fewer than three parts are ignored |
| Wire.ParseExtras | server/EpollServer.cpp:306-333 | the loop over optional fields applies them in order |
| Wire.LocationRoundTrip | app/src/main/java/com/example/crowdmap/location/LocationRepository.kt:330-340 | a printed position is parsed to its user, latitude, longitude and device count, in both builds; user 0 makes it a question |
| Wire.ZoneRoundTrip | app/src/main/java/com/example/crowdmap/location/LocationRepository.kt:215-217 | a printed zone report is parsed to its zone and a density of at least 1 |
| Wire.RelayRoundTrip | app/src/main/java/com/example/crowdmap/location/LocationRepository.kt:249-255 | a relayed report counts if and only if its zone is not negative and its density is positive |
| Wire.QueryRoundTrip | server/tools/loadgen.cpp:505-517 | a printed question gives place, request number and capped work in experiment builds, and the place alone in production |
| Wire.QuestionRoundTrip | app/src/main/java/com/example/crowdmap/network/ServerClient.kt:147 | the app's question line, with coordinates in either notation, is parsed to a query for that place in both builds |
| Wire.UnknownFieldIgnored | server/EpollServer.cpp:306-333 | a further field with an unknown key changes nothing |
| Wire.BatchLines | app/src/main/java/com/example/crowdmap/location/LocationRepository.kt:215-240 | a batch of reports splits into exactly its lines |
| Wire.ReportsArrive | server/EpollServer.cpp:209-346 | however the network cuts a batch, a drained connection has told the server exactly the app's positions and zone reports, in order |
| Response.ParseResponse | app/src/main/java/com/example/crowdmap/network/ServerClient.kt:177-195 | null below two parts, else level, ratio, and the last interval field's number |
| Response.AppReadsFields | app/src/main/java/com/example/crowdmap/network/ServerClient.kt:177-195 | what the app reads depends on the trimmed fields only |
| Response.AppReadsAny | app/src/main/java/com/example/crowdmap/network/ServerClient.kt:174-195 | level, ratio and interval are recovered whatever unknown fields follow |
| Response.AppReadsProcess | server/QueryService.cpp:73-104 | for every answer of process() in either build, with any further fields |
| Response.AppReadsStale | server/QueryService.cpp:111-132 | for every reply to a shed or expired query, with the shedding interval |
| Response.GeneratorReadsProcess | server/tools/loadgen.cpp:580-619 | the generator reads request number, queueing and service time from every reply of process() and sees no tag |
| Response.GeneratorReadsStale | server/tools/loadgen.cpp:580-619 | and request number, wait and tag from every shed or expired reply |
| Histogram.IdxInRange | server/tools/loadgen.cpp:160-170 | every 64-bit value has a bucket |
| Histogram.IdxMonotone | server/tools/loadgen.cpp:166-170 | buckets are in the order of the values |
| Histogram.MidError | server/tools/loadgen.cpp:171-177 | the middle of a value's bucket is within 1/128 of it |
| Histogram.SortedFacts | server/tools/loadgen.cpp:191-200 | the reference order is sorted and keeps every count |
| Histogram.RankBucket | server/tools/loadgen.cpp:193-199 | the bucket where the running count reaches the rank is that of the sample of that rank |
| Histogram.Hist.constructor | server/tools/loadgen.cpp:158-165 | an empty histogram stands for no samples |
| Histogram.Hist.Add | server/tools/loadgen.cpp:178-184 | adds one sample, negative durations as 0 |
| Histogram.Hist.Merge | server/tools/loadgen.cpp:185-190 | adds all samples of the other, also of itself |
| Histogram.Hist.Pct | server/tools/loadgen.cpp:191-200 | for 0 < p <= 1 within 1/128 of the sample whose rank is p n rounded up, of everything added and merged, and at most the maximum |
| LoadGenerator.EndKeepsBooks | server/tools/loadgen.cpp:595-659 | ending a request moves it from the pending to one counter and one record |
| LoadGenerator.CountersCount | server/tools/loadgen.cpp:595-659 | each of the program's counters counts the measured requests that ended its way, and sent is their sum and the pending ones |
| LoadGenerator.PlaceKeepsBooks | server/tools/loadgen.cpp:485-503 | placing a request under a new number keeps sent = outcomes + pending |
| LoadGenerator.SkipKeepsBooks | server/tools/loadgen.cpp:485-490 | a request that cannot be sent is sent and skipped at once |
| LoadGenerator.Worker.constructor | server/tools/loadgen.cpp:268-279 | all slots start empty and all counters at 0 |
| LoadGenerator.Worker.FindConn | server/tools/loadgen.cpp:475-484 | gives a usable connection unless the next 64 round the cursor are all unusable |
| LoadGenerator.RoundIs | server/tools/loadgen.cpp:475-484 | the cursor goes round the connections one by one |
| LoadGenerator.Worker.Place | server/tools/loadgen.cpp:492-503 | a connection with free > 0 always has an empty slot to find |
| LoadGenerator.Worker.Issue | server/tools/loadgen.cpp:463-535 | a request is pending under the next number, skipped, or lost with its connection, and counted as sent once |
| LoadGenerator.Worker.HandleLine | server/tools/loadgen.cpp:595-659 | a reply ends the request it names with the outcome of its tag; the books stay in order if and only if it does not name 0 while a slot is empty |
| LoadGenerator.NonNumberNamesZero | server/tools/loadgen.cpp:580-593 | a field that is no number reads as 0 |
| LoadGenerator.ZeroReplyOverbooks | server/tools/loadgen.cpp:605-659 | after such a reply a connection can claim a free slot and have none |
| LoadGenerator.Worker.End | server/tools/loadgen.cpp:657-659 | frees the slot and records the outcome |
| LoadGenerator.Worker.DropConn | server/tools/loadgen.cpp:661-679 | everything pending on the connection is lost, once, and all its slots are free |
| LoadGenerator.Worker.FinishConnect | server/tools/loadgen.cpp:681-697 | a reconnect changes no count |
| LoadGenerator.Worker.ScanTimeouts | server/tools/loadgen.cpp:699-712 | ends exactly the requests pending for the timeout or longer |
| LoadGenerator.Worker.Finish | server/tools/loadgen.cpp:393-394 | after the final scan nothing is pending, sent = ok + shed + late + timeout + skipped + lost in each class, and every number ended exactly once |

## Left out

- Sockets, epoll, curl, JSON, Redis access, CSV rows, logging, and the send loops: only their results appear, as inputs.
- CPU pinning, nice values, CPU clocks, the synthetic work loop and the wiring in main.cpp; 1 <= cMin and c_max <= threads are preconditions, as main.cpp guarantees them.
- IEEE rounding and -ffast-math: numbers are reals or unbounded integers, and counters do not wrap.
- Arrival processes and real-time scheduling: arrivals, clock readings and service times are arbitrary.
- Condition variables of CongestionRouter and the end of its I/O thread: `ioRunning` changes outside the mutex, so only safety is claimed there.
- ClassPool.ClassPool.SnapshotRest: has all its reads at one instant; what reads at different instants give is ClassPool.TornReads and PoolProtocol.SnapshotSpans, and what a read between one worker's own stores can do is ServiceVariance.TornSnapshotGoesNegative.
- ClassPool.ClassPool.Snapshot: has nothing between its two parts; for steps in between see PoolProtocol.SnapshotSpans.
- The nine stripe locks of a density query: the query is modelled as one read of the grid, and a cleanup as one pass without other calls between stripes; iteration order inside a stripe does not appear.
- GridZone objects inside the engine: its maps hold zones by value, so the engine is modelled on zone values, and the zone object's methods are proved to compute the functions that the engine uses.
- Zone density reports kept by the engine, the Redis writer queue, and the mirroring of events.
- MemoryPool, CpuTopology, ZoneMapper, CongestionCalculator and the reconnect back-off, which would add only easy members.
- `generations_` in EpollServer, which is written and never consulted.
- Latency histograms and time-series bins inside the load generator's accounting; the histogram itself is proved on its own.
- Wire.ParseLine: does not read hexadecimal numbers, infinities and NaN as atof does, because coordinates are real numbers; exponents are read.
- Response.ParseResponse: does not read hexadecimal numbers, infinities and NaN as toDoubleOrNull does, nor trim Unicode blanks; exponents and type suffixes are read.
- Text.AtofDouble: which digits Kotlin chooses for a double is not modelled; any digits in its two notations are covered.
- Text beyond a reply's end, which strtoull could skip blanks into when a field is empty.
- Cell indices beyond 64 bits, whose conversion from double has no defined result: the model folds them like the others.
- CacheManager.Cache.Set: asks, through Valid(), for a cache of size at least 1; with less the first set pops from an empty list, which has no defined result.
- PoolDecision.CapIs: asks for kMin <= kMax, as the defaults have it.
- QueueMath.KFloorBrackets: is about one server and unit variations, for which the exact value is in closed form; for other variations see QueueMath.KFloorScales.
- QueueMath.PyPWaitGt: asks for a service rate other than 0, on which Python raises an error.
- QueueMath.MinServersErlang: asks for a service rate other than 0, on which Python raises an error.
- PoolController.WantIsExact: asks for variations whose sum is not negative and caps below 1e18, as the defaults and the estimate give them.
- Histogram.Hist.Pct: asks for p >= 0, because a negative rank has no defined conversion in the source.
- Android user interface, Bluetooth scanning, services, build and shell scripts, and the experiments' reporting.
