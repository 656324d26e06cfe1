# Verified model of the real-time edit monitor

The program reads a stream of wiki edits, parses them, queues human edits before bot edits, and processes
them on a hot path with a 2 ms deadline. A fail-safe machine drops bot edits when latency spikes, a watchdog
resets the connection after 10 s of silence, and metrics and a leaderboard record what happened. This project
models that logic in Dafny and proves what it promises over whole runs. `dafny verify dfyconfig.toml` checks
everything.

## The parts

- `Types.dfy`: packets, priorities, the fixed-width wrapping counters, the thresholds.
- `Metrics.dfy`: rolling windows, percentiles, bounded logs. Samples are exact reals.
- `FailSafeMode.dfy`, `FailSafeHistory.dfy`, `SharedFailSafe.dfy`: the fail-safe machine as an object; its closed
  form, transition bounds and admission rate; and the same code cut into single atomic operations for any
  number of threads.
- `SharedStress.dfy`, `SharedAdmission.dfy`: what stress injection does to that shared machine when calls overlap, and
  how it admits bot packets then.
- `LeaderboardStore.dfy`: three storage strategies against one counting specification.
- `HotPath.dfy`, `HotPathRuns.dfy`, `HotPathFleet.dfy`: the processing of one packet; single calls and runs of one
  hot path; and any number of hot paths taking turns on one fail-safe machine and one leaderboard, as the two of
  src/main.rs:97-137 do.
- `Scheduler.dfy`, `ParseLoops.dfy`: the two priority queues and the two parsing loops, running alone.
- `Pipeline.dfy`: parser, dispatcher and consumer interleaved. A run is any sequence of atomic steps, where an
  impossible step is skipped, so a statement about all step sequences covers all interleavings. The same
  protocol describes the threaded and the asynchronous pipeline; each has one parser per scheduler. Capacities
  are parameters (256 and 512 in the program).
- `SharedHotPaths.dfy`: the same with calls that overlap operation by operation.
- `SharedLog.dfy`: any number of pipelines that report overflows to one metrics store.
- `EndToEnd.dfy`: pipelines and hot paths together.
- `SseClient.dfy`, `SseRoundTrip.dfy`: incremental framing of the event stream, a restriction of sections 9.2.5
  and 9.2.6 of the WHATWG HTML Living Standard.
- `WatchdogTimer.dfy`: the polling loop, and its steps racing with heartbeats.

Everything the environment decides is an argument: clock readings, time spent working, chunk boundaries, the
outcome of every `try_lock`, and when `stop` is seen (a loop runs over the finite sequence of what it observes).
Atomic operations are sequentially consistent single steps.
Every induction is written out: automatic induction is switched off on each lemma it would apply to.

## Where the code and its prose differ

The model follows the code.

- REPORT.md:130-132 describes drop-newest; the code evicts the oldest packet and enqueues the new one.
- src/component_e/fail_safe.rs:14 speaks of 20 clean cycles; the code needs 25 to leave DEGRADED and then 60.
- README.md:60 and README.md:73 speak of latency injected into every 50th packet, src/types.rs:150 of every 8th; the
  latter two expect a steady DEGRADED. The code injects into every 20th (src/types.rs:157) packet of each hot path.
  With the two hot paths of src/main.rs, which share the machine, injection pins DEGRADED up to every 13th packet
  (`HotPathFleet.StressPinsDegraded`), so 8 would, and neither 20 nor 50 does. A single hot path is pinned by 20.
- The domain of an overflow event is that of the packet that arrived, not of the evicted one.

## Properties that hold only under a condition

- The machine never goes from DEGRADED straight to NORMAL, in any interleaving, exactly when a single thread uses
  it (`RecoveryIsSkippedExactly`); `SharingCanSkipRecovery` is the interleaving for two and more. Calls that do not
  overlap obey the sequential theory for any number of threads (`SerialRefinesRun`).
- A deadline miss leaves the machine in DEGRADED (`MissDegrades`), only human packets are handled from then on until it
  recovers, and the metrics show the current mode (`ReportedModeIsCurrent`), for one hot path and for several that
  take turns. When calls overlap:
  - every call that records a spike completes in DEGRADED exactly when a single thread uses the machine
    (`SpikesDegradeExactly`); with two, one can be held up before it reports while the other makes 25 clean calls.
    What survives for any number of threads: the machine is in DEGRADED at some moment of every such call
    (`SpikeIsFelt`);
  - the metrics show the current mode, whenever no call is in progress and no lock fails, exactly when a single thread
    uses the machine (`ShownModeIsCurrentExactly`).
- Stress injection into every n-th packet of each of k hot paths keeps the machine degraded exactly if
  k (n - 1) <= 24, whether the calls take turns (`HotPathFleet.StressPinsDegraded`) or overlap
  (`SharedStressPinsDegraded`). When it does, a run that finds the machine degraded with calls at any of their
  operations stays there exactly if no call has decided, or will decide, to leave, and the clean latencies counted and
  those there is still room for are fewer than 25 (`StartIsPinnedExactly`).
- Resets are, and in silence will stay, more than 10 s apart exactly if every heartbeat was harmless when it was
  stored (`ResetsAreApartExactly`): no reset had fired yet, the latest one is over 10 s ago, the timer is about to be
  rearmed, or the heartbeat was read after the latest reset or at the epoch, which switches the watchdog off.
  `StaleBeatBreaksSpacing` is a run in which a stale heartbeat breaks the spacing.
- The lower bound on the silence per reset holds exactly when no poll begun before the heartbeat was read is still in
  progress, or the heartbeat is over 10 s old (`ResetsAreEarnedExactly`). The upper bound always holds
  (`SilenceIsBounded`). Both do so however old that and earlier heartbeats are.
- Two leaderboard strategies agree on every top list exactly if both or neither is Atomic, or no domain outside the ten
  known ones was counted (`StrategiesAgree`).
- The running totals in the overflow log grow strictly, in every run, exactly when one pipeline writes it
  (`LogGrowsExactly`). The two pipelines of src/main.rs share a log; it is then a merge of one growing sequence for
  each (`SharedLogIsAMerge`). In src/bin/compare_pipelines.rs each has its own.

## Model

| member | source | states |
|---|---|---|
| Metrics.LatencySamples.Push | src/metrics.rs:28-33 | a push drops the oldest sample exactly when the window holds 10 000 |
| Metrics.LatencySamples.PushAll | src/metrics.rs:28-33 | after any pushes the window is exactly the last 10 000 samples, in order |
| Metrics.WindowIsSuffix | src/metrics.rs:156-169 | a bounded log holds exactly the most recent entries, whatever was pushed and for any bound |
| Metrics.LatencySamples.Percentile | src/metrics.rs:55-61 | the result is the order statistic at the rounded and clamped index, with the ranks that p and the window size demand; 0 for an empty window |
| Metrics.PercentileIndex | src/metrics.rs:59-60 | the index is in range for every p; within half a position of p percent of the last one, halves rounded up, for p from 0 to 100; 0 below and the last one above |
| Metrics.PercentileRanks | src/metrics.rs:55-61 | for p from 0 to 100 and x = p percent of len-1, the percentile is the one sample with more than x + 1/2 samples at or below it and at least len - x - 1/2 at or above it |
| Metrics.PercentileIsOrderStatistic | src/metrics.rs:55-61 | the percentile is the one sample with at least idx+1 samples at or below it and at least len-idx at or above it, and no other value is |
| Metrics.PercentilesAreOrdered | src/metrics.rs:63-65 | percentiles do not decrease in p and never exceed the maximum, hence p50 <= p90 <= p99 <= max |
| Metrics.LatencySamples.Max | src/metrics.rs:50-52 | the largest sample of the window; none only for an empty window |
| Metrics.SharedMetrics.PushOverflow | src/metrics.rs:156-161 | the overflow log takes the event and keeps at most 10 000 entries |
| Metrics.SharedMetrics.PushDeadlineMiss | src/metrics.rs:164-169 | the miss log takes the event and keeps at most 10 000 entries |
| FailSafeMode.FailSafe.constructor | src/component_e/fail_safe.rs:48-56 | starts in NORMAL with all counters at zero |
| FailSafeMode.FailSafe.RecordLatency | src/component_e/fail_safe.rs:77-116 | an uninterrupted call takes the registers to `Record` of the old ones, and reports a mode change when the lock is free |
| FailSafeMode.FailSafe.AllowBotPacket | src/component_e/fail_safe.rs:120-130 | verdict and tick are those of `Admit`; nothing else changes |
| FailSafeMode.FailSafe.TransitionTo | src/component_e/fail_safe.rs:132-148 | sets the mode; label and activation count change only on a real change with the lock held |
| FailSafeHistory.ClosedForm | src/component_e/fail_safe.rs:77-116 | for every latency history mode and live counters are read off what followed the last spike: first run of 25 clean samples, then first run of 60 |
| FailSafeHistory.OneSpikeForgetsThePast | src/component_e/fail_safe.rs:81-113 | after the same spike any two histories show the same mode for ever |
| FailSafeHistory.StaysDegraded | src/component_e/fail_safe.rs:86-98 | DEGRADED is not left before 25 clean samples in a row, whatever spikes occur |
| FailSafeHistory.RunIsSound | src/component_e/fail_safe.rs:77-116 | every run keeps the mode legal, `degraded_clean` below 25 and zero outside DEGRADED, `clean_cycles` below 60 in RECOVERY |
| FailSafeHistory.AntiChatter | src/component_e/fail_safe.rs:86-113 | n samples cause A activations and R returns with 26 A <= n + 25 and 86 R <= n |
| FailSafeHistory.ActivationBoundIsTight | src/component_e/fail_safe.rs:81-113 | for every A a history attains the activation bound |
| FailSafeHistory.ReturnBoundIsTight | src/component_e/fail_safe.rs:86-113 | for every R a history attains the return bound |
| FailSafeHistory.HalfRate | src/component_e/fail_safe.rs:120-130 | of k recovery-mode queries in any window of any run exactly floor or ceil of k/2 are admitted, by the parity of the tick, also across its wrap-around |
| SharedFailSafe.SharingIsBounded | src/component_e/fail_safe.rs:86-98 | in every interleaving of T threads the mode byte is legal and `degraded_clean` is at most 24 plus the threads that saw 25 and have not stored 0 yet, hence at most 24 + T |
| SharedFailSafe.ActivationsAreExact | src/component_e/fail_safe.rs:132-148 | changes of the mode byte into DEGRADED = activations counted + locks missed + threads about to report |
| SharedFailSafe.ActivationsAreReports | src/component_e/fail_safe.rs:132-148 | activations counted are exactly the reports of DEGRADED that found the lock free; the others are missed |
| SharedFailSafe.SoloRefinesRecord | src/component_e/fail_safe.rs:77-116 | an uninterrupted sequence of atomic operations has the effect of the atomic call, whatever the registers hold |
| SharedFailSafe.SerialRefinesRun | src/component_e/fail_safe.rs:77-116 | non-overlapping calls by any threads obey the sequential machine, even while other threads are stopped in the middle of a call |
| SharedFailSafe.SharingCanSkipRecovery | src/main.rs:97-137 | for any two or more threads, two overlapping calls can take the machine from DEGRADED straight to NORMAL |
| SharedFailSafe.RecoveryIsSkippedExactly | src/component_e/fail_safe.rs:77-148 | no interleaving goes from DEGRADED straight to NORMAL if and only if at most one thread uses the machine |
| SharedFailSafe.ShownModeIsCurrentExactly | src/component_e/fail_safe.rs:132-148 | with every lock free, the metrics show the current mode whenever no call is in progress, in all interleavings, if and only if at most one thread uses the machine |
| SharedFailSafe.SpikesDegradeExactly | src/component_e/fail_safe.rs:77-116 | every call that records a spike finds the machine in DEGRADED at the operation that completes it, in all interleavings, if and only if at most one thread uses the machine |
| SharedFailSafe.SpikeIsFelt | src/component_e/fail_safe.rs:77-116 | in every interleaving of any number of threads the machine is in DEGRADED at some moment of every call that records a spike |
| SharedAdmission.UninterruptedQuery | src/component_e/fail_safe.rs:120-130 | load and fetch-and-add, uninterrupted, are the atomic query |
| SharedAdmission.SharedHalfRate | src/component_e/fail_safe.rs:120-130 | when queries overlap one another and any recording, of the recovery queries completed in any window exactly floor or ceil of half are admitted, by the parity of the tick, also across its wrap-around |
| SharedStress.SharedStressPinsDegraded | src/component_e/fail_safe.rs:86-98 | once DEGRADED with no call in progress, k threads that bring a latency which is not clean in every n of their calls keep it DEGRADED in every interleaving of their atomic operations if and only if k (n - 1) <= 24 |
| SharedStress.StartIsPinnedExactly | src/component_e/fail_safe.rs:77-148 | if k (n - 1) <= 24, a machine in DEGRADED with every thread at any operation of its call stays there in all interleavings if and only if no thread has decided to leave, the stragglers still counting clean cycles cannot reach 60, and the clean count plus the room for more is below 25 |
| SharedStress.InjectedIsNoCleanRun | src/component_b/hot_path.rs:74-86 | `Injected` says exactly that no thread starts n calls in a row with clean latencies |
| SharedStress.RunIsCovered | src/component_e/fail_safe.rs:77-116 | every state in DEGRADED that an injected run reaches from the start is one of those machines |
| LeaderboardStore.Leaderboard.Increment | src/component_d/leaderboard.rs:74-103 | exactly the store of the selected strategy counts the domain once |
| LeaderboardStore.StoresCount | src/component_d/leaderboard.rs:77-100 | after any increments the maps hold the occurrence count of every domain, the slots its restriction to the ten known domains |
| LeaderboardStore.EntriesAreCounts | src/component_d/leaderboard.rs:107-122 | the ranked pairs are the domains seen with their counts; unknown domains are missing under Atomic only |
| LeaderboardStore.Leaderboard.TopN | src/component_d/leaderboard.rs:106-126 | the result is a prefix of a descending arrangement of exactly the ranked pairs |
| LeaderboardStore.TopIsTop | src/component_d/leaderboard.rs:123-125 | a top list has min(n, entries) distinct pairs in descending order and no omitted pair beats a listed one |
| LeaderboardStore.StrategiesAgree | src/component_d/leaderboard.rs:106-126 | after the same increments two strategies show the same counts in all top lists of every length if and only if both or neither is Atomic, or all domains counted are known |
| LeaderboardStore.EditsAdd | src/component_d/leaderboard.rs:78-91 | under the map strategies the total grows by one per increment |
| HotPath.HotPathProcessor.ProcessPacket | src/component_b/hot_path.rs:48-123 | a call takes fail-safe machine, stress counter, leaderboard and metrics to `Process` of the old state; the verdict is false exactly for a handled packet over 2 ms |
| HotPathRuns.OutcomeInNanoseconds | src/component_b/hot_path.rs:66-92 | skipped are exactly bot packets in DEGRADED; injected are exactly the n-th packets from second 15 up to second 25 of the run; the latency is the work plus 3 ms and overshoot if injected |
| HotPathRuns.ProcessInNanoseconds | src/component_b/hot_path.rs:95-122 | a handled packet is late exactly if it takes over 2 000 000 ns, and exactly then it takes NORMAL or RECOVERY to DEGRADED; the clean counts advance, up to 25 and 60, exactly below 500 000 ns |
| HotPath.HotPathProcessor.InjectStress | src/component_b/hot_path.rs:74-86 | the counter advances exactly for packets inside the window; every n-th one spins at least 3 ms |
| HotPath.HotPathProcessor.Run | src/component_b/hot_path.rs:135-141 | the receive loop processes exactly the received packets, in order |
| HotPathRuns.RunDecomposes | src/component_b/hot_path.rs:67-120 | over any run the fail-safe machine has seen exactly the handled latencies and the leaderboard exactly the handled packets |
| HotPathRuns.EditsEqualHandled | src/component_b/hot_path.rs:67-89 | total edits grow by packets processed minus packets skipped |
| HotPathRuns.MissDegrades | src/component_b/hot_path.rs:95-122 | one hot path, or several that take turns: a call that reports a miss leaves the machine in DEGRADED with no clean packet to its credit |
| HotPathFleet.OnlyHumansUntilRecovered | src/component_b/hot_path.rs:66-69 | one hot path, or several that take turns: after a miss exactly the human packets are handled, in order, until 25 in a row were clean |
| HotPathFleet.BotAfterMissNeedsRecovery | src/component_b/hot_path.rs:66-120 | one hot path, or several that take turns: if any of them handles a bot packet after a miss, 25 consecutive human packets were clean in between |
| HotPathFleet.BotsAloneChangeNothing | src/component_b/hot_path.rs:53-69 | bot packets alone in DEGRADED change nothing but their drift window |
| HotPathFleet.ReportedModeIsCurrent | src/component_e/fail_safe.rs:132-148 | one hot path, or several that take turns: if no lock fails the metrics show the current mode and the exact number of activations, within the anti-chatter bound |
| HotPathFleet.MetricsDecompose | src/component_b/hot_path.rs:53-112 | each sample window holds the last 10 000 of its class that found the lock free, latencies in nanoseconds of handled packets and drifts of all; every handled packet over 2 ms that found the lock free is counted and logged |
| HotPathFleet.FleetOfOne | src/component_b/hot_path.rs:48-123 | a fleet of one hot path ends in the state of the hot path alone, and has handled and recorded the same |
| HotPathFleet.FleetDecomposes | src/main.rs:97-137 | hot paths taking turns feed the shared machine exactly their handled latencies, and the shared leaderboard exactly their handled packets, in the order of the calls |
| HotPathFleet.FleetEdits | src/main.rs:97-137 | under the map strategies the total of the shared leaderboard grows by the packets not skipped |
| HotPathFleet.StressPinsDegraded | src/component_b/hot_path.rs:71-86 | injecting into every n-th packet of each of k hot paths that take turns pins DEGRADED from the first injection on, for every run and packet mix, if and only if k (n - 1) <= 24, counter wrap-around included |
| Scheduler.PriorityScheduler.Enqueue | src/component_c/priority_scheduler.rs:47-60 | stamps and appends to the queue of the class unless it is full, and says which |
| Scheduler.PriorityScheduler.DequeueNext | src/component_c/priority_scheduler.rs:65-90 | takes the oldest human packet, else the oldest bot packet, and records its drift when the lock is free |
| Scheduler.PriorityScheduler.EvictOldest | src/component_c/priority_scheduler.rs:114-121 | removes the head of one queue; no effect on an empty one |
| Scheduler.PriorityScheduler.RunDispatchLoop | src/component_c/priority_scheduler.rs:94-105 | polls forward all human, then all bot packets, first in first out; exactly those beyond the free space of the output are lost |
| ParseLoops.OfferDropOldest | src/component_a/threaded_pipeline.rs:164-182 | a full queue loses its oldest packet to the new one and one overflow is counted and, lock permitting, logged; the retry is accepted |
| ParseLoops.ThreadedParser.ParseLoop | src/component_a/threaded_pipeline.rs:139-183 | counters, heartbeat, queues and metrics after the loop are those of `Iterations`; timeouts and malformed input change nothing; each queue holds the last domains of its bot flag that fit |
| ParseLoops.DrainAndParse | src/component_a/async_pipeline.rs:159-223 | the asynchronous loop does the same with local counters, which it returns |
| ParseLoops.QueuesByBotFlag | src/types.rs:61-97 | the low queue ends up with the last domains of the changes with the bot flag that fit, the high queue with those without; the overflow count is the excess of each; a missing domain counts as unknown |
| ParseLoops.LogIsReports | src/component_a/threaded_pipeline.rs:149-178 | the log takes exactly the overflows that found the lock free, with class and domain of the change that arrived, numbered as counted; the counter of this pipeline shows the latest, that of the other stays |
| ParseLoops.HeartbeatIsLatest | src/component_a/threaded_pipeline.rs:151-156 | the heartbeat left behind is the clock reading of the latest change |
| ParseLoops.QueuesHoldTheLatest | src/component_a/async_pipeline.rs:197-216 | each queue ends up as the last packets of its class that fit, in order |
| ParseLoops.OverflowsAreExcess | src/component_a/async_pipeline.rs:199-205 | the overflow count is the excess of the arrivals per class over the free space |
| Pipeline.ExactlyOnce | src/component_a/threaded_pipeline.rs:161-182 | in every interleaving each parsed packet is in exactly one of: parser's hand, its queues, evicted, dispatcher's hand, dropped at the output, output channel, processed |
| Pipeline.Conserved | src/component_a/threaded_pipeline.rs:161-182 | the clone made for the first try never duplicates or loses a packet: copies in all places equal copies parsed |
| Pipeline.RetryNeverFails | src/component_a/async_pipeline.rs:199-216 | the second enqueue succeeds in every interleaving, and all arrivals of a class but the one in hand have been enqueued in arrival order |
| Pipeline.OrderIsPreserved | src/component_c/priority_scheduler.rs:65-121 | each queue is a contiguous end of its class's enqueues, and what reaches the hot path is a subsequence of the arrivals |
| Pipeline.OverflowsAreAccounted | src/component_a/threaded_pipeline.rs:164-181 | overflows = evictions + evict calls on a drained queue + the one in progress; in a log that only this pipeline writes, totals grow strictly, are at most the counter, name the packet that arrived, and never exceed 10 000 entries |
| Pipeline.LogHoldsTheLatest | src/component_a/threaded_pipeline.rs:164-178 | in every interleaving the log holds exactly the latest 10 000 overflows that found the lock free |
| SharedLog.PipesAreIndependent | src/main.rs:75-129 | each of several pipelines behaves as it does alone, so its theorems hold among others |
| SharedLog.SharedLogIsAMerge | src/metrics.rs:156-161 | a log shared by several pipelines never exceeds 10 000 entries and is a merge of one strictly growing sequence for each, the end of what that pipeline logged, every entry naming the packet that arrived there |
| SharedLog.SharedLogHoldsTheLatest | src/metrics.rs:156-161 | the shared log holds exactly the latest 10 000 of the overflows of all pipelines that found the lock free, in order |
| SharedLog.LogGrowsExactly | src/component_a/threaded_pipeline.rs:164-178 | the logged totals grow strictly in every run if and only if at most one pipeline writes the log |
| Pipeline.NoPriorityInversion | src/component_c/priority_scheduler.rs:65-73 | when a bot packet is taken, every human packet enqueued before that call's high poll has left the high queue, whatever happened between the two polls |
| Pipeline.NoPriorityInversionEver | src/component_c/priority_scheduler.rs:65-90 | the same for every low poll of every run: the step before it in the dispatcher was a high poll that found nothing, and only human packets enqueued since then can be waiting |
| Pipeline.DrainsInOrder | src/component_c/priority_scheduler.rs:65-105 | without enqueues the queues drain as all human, then all bot, first in first out |
| Pipeline.DropsExactlyWhenFull | src/component_c/priority_scheduler.rs:94-105 | in every run a packet is dropped exactly when the dispatcher moves with it in hand and the output channel is full; otherwise it goes to the back of the channel |
| Pipeline.FewArrivalsAreNotDropped | src/component_a/async_pipeline.rs:226-240 | a run that parses no more packets than the output channel holds drops none |
| Pipeline.DispatcherAloneIsTheLoop | src/component_c/priority_scheduler.rs:94-105 | the dispatcher's steps, uninterrupted, do what the dispatch loop does: the front of all human, then all bot fills the channel, exactly what does not fit is dropped |
| Pipeline.EverythingCanBeDelivered | src/component_c/priority_scheduler.rs:65-105 | from every state some draining steps bring all that was enqueued to the hot path, in order and without a loss |
| Pipeline.OfferAlone | src/component_a/threaded_pipeline.rs:164-182 | without interference the parser is done after five steps and has appended, or replaced the oldest |
| Pipeline.WithoutDispatcher | src/component_a/threaded_pipeline.rs:164-182 | while the dispatcher does not run, each queue is exactly the last arrivals of its class that fit |
| EndToEnd.EveryChangeIsAccountedFor | src/component_b/hot_path.rs:48-123 | changes parsed by one pipeline = edits added to the leaderboard + skipped + evicted + dropped + in flight, in every interleaving and under all timings |
| EndToEnd.AllPipelinesAreAccountedFor | src/main.rs:75-137 | the same sum over any number of pipelines whose hot paths share one leaderboard and one fail-safe machine |
| SharedHotPaths.UninterruptedCall | src/component_b/hot_path.rs:66-120 | skip test, increment and recording operations, uninterrupted, do to machine and leaderboard what a whole call does |
| SharedHotPaths.OneCallAtATime | src/component_b/hot_path.rs:135-141 | in every interleaving a hot path that has a packet to count or to record is not recording another one |
| SharedHotPaths.OverlappingCallsAddUp | src/component_b/hot_path.rs:66-120 | in every interleaving of the operations of any number of hot paths, packets received = edits added + skipped + about to be counted, the latter at most one for each hot path |
| EndToEnd.OverlappingPathsAreAccountedFor | src/main.rs:75-137 | the sum over all pipelines when the calls of their hot paths overlap: parsed = edits added + skipped + about to be counted + evicted, dropped or in flight |
| SseClient.FindsFirstBreak | src/ingestion/sse_client.rs:124-126 | the position found is that of the first double newline |
| SseClient.ExtractDataLine | src/ingestion/sse_client.rs:130-140 | what is extracted begins with a brace and contains no newline |
| SseClient.DataLinesAre | src/ingestion/sse_client.rs:131-135 | a line carries a payload exactly if it is the field name, with or without the space, followed by something that begins with a brace |
| SseClient.ExtractsTheFirst | src/ingestion/sse_client.rs:130-140 | what is extracted from a block is the payload of its first line that carries one; nothing if none does |
| SseClient.FramingIsUnique | src/ingestion/sse_client.rs:97-113 | blocks and residual are the only way to cut the stream into parts that each end with their first empty line, with a rest that has none |
| SseClient.WireFormat | src/ingestion/sse_client.rs:124-140 | the bytes that frame and mark a data line are those of the ASCII text |
| SseClient.DecodeSplit | src/ingestion/sse_client.rs:94-113 | decoding may stop anywhere and resume from the residual |
| SseClient.ChunkingDoesNotMatter | src/ingestion/sse_client.rs:78-113 | any two ways of cutting the same bytes into chunks yield the same payloads and residual, those of the batch decoder |
| SseClient.Client.Feed | src/ingestion/sse_client.rs:94-113 | one chunk yields what the batch decoder finds in buffer plus chunk, and leaves no double newline |
| SseClient.Client.Connection | src/ingestion/sse_client.rs:75-114 | a connection starts with an empty buffer and yields the batch decoding of the chunks of exactly the turns before the first that sees stop or the reconnect flag or fails; it reports whether that turn saw stop |
| SseClient.Client.Run | src/ingestion/sse_client.rs:53-120 | connections are made up to the first in which stop is seen, and the payloads are those of each, decoded by itself |
| SseRoundTrip.RoundTrip | src/ingestion/sse_client.rs:124-140 | encoded payloads, with any other lines in front and with or without the space, decode to exactly themselves in order |
| SseRoundTrip.RoundTripInChunks | src/ingestion/sse_client.rs:94-140 | the same under any chunking, with nothing left over |
| SseRoundTrip.DecodedPayloadsSurvive | src/ingestion/sse_client.rs:124-140 | payloads decoded from arbitrary bytes survive encoding and decoding |
| WatchdogTimer.Watchdog.Run | src/component_e/watchdog.rs:55-83 | the loop takes timer, reset count, flag and metrics to `PlayRounds` of the old ones |
| WatchdogTimer.ReportsAreResets | src/component_e/watchdog.rs:69-72 | the metrics show the number of the latest reset that found the lock free |
| WatchdogTimer.UninterruptedPoll | src/component_e/watchdog.rs:59-81 | the atomic steps of a poll, uninterrupted, are the loop body, with or without the metrics lock |
| WatchdogTimer.ReconnectsFollowResets | src/component_e/watchdog.rs:67-81 | the client takes the flag at most once for each reset, and a reset that is through has raised it |
| WatchdogTimer.LoopIsRun | src/component_e/watchdog.rs:55-83 | the loop with timely rounds, whichever polls get the metrics lock, is a run of the interleaved protocol with atomic heartbeats: same timer, resets and flag |
| WatchdogTimer.ResetsAreApart | src/component_e/watchdog.rs:67-81 | consecutive resets are more than 10 000 ms apart however heartbeats race, as long as each is harmless when stored, in particular if none predates the latest reset |
| WatchdogTimer.BeatKeepsResetsApartExactly | src/component_a/threaded_pipeline.rs:152-156 | after a heartbeat of any age, resets stay apart in all silent continuations if and only if it is harmless: a condition on timer state, clock and age |
| WatchdogTimer.ResetsAreApartExactly | src/component_e/watchdog.rs:59-81 | at every moment of a run, resets are and in silence stay apart if and only if every heartbeat of the run was harmless when stored |
| WatchdogTimer.AtomicIsSteady | src/component_e/watchdog.rs:59-81 | atomic heartbeats never predate the latest reset, hence are harmless, and keep the timer within 10 000 ms of the polls |
| WatchdogTimer.StaleBeatBreaksSpacing | src/component_e/watchdog.rs:67-81 | a heartbeat read before a reset and stored after it makes the watchdog fire twice at once |
| WatchdogTimer.SilenceIsBounded | src/component_e/watchdog.rs:56-81 | from a heartbeat stored at t, however old it and the earlier ones are, to a poll at P in silence, with polls at most G apart, P - t <= c (10000 + G) + 10000 for the c resets in between |
| WatchdogTimer.ResetsAreEarnedExactly | src/component_e/watchdog.rs:56-81 | after a heartbeat read at t, stored at any later time and after any run, 10001 c <= P - t holds in all silent continuations if and only if no poll begun before t is in progress or the heartbeat is over 10 s old |

## Left out

- HTTP, Tokio and thread plumbing, sleeps, console output, CSV files, the binaries and all benchmarks: I/O and measurement.
- JSON parsing: done by a library; a parsed change is its bot flag and domain, a failed parse is one input kind.
- Legacy code outside the active module tree (src/advanced, the sensor, processor, transmitter, controller, actuator and receiver files).
- Mock stream, random generation and the synchronisation benchmark: nothing decided there.
- Floating-point rounding: latencies, samples and percentile arguments are exact reals, never NaN. `mean` and `std_dev` are plain formulas.
- Relaxed memory ordering beyond single-location atomicity.
- Overflow of the 64-bit event, overflow, reset and edit counters: unbounded here; the stress counter and the 32-bit fail-safe registers do wrap.
- SseClient.Client.Feed: stops at handing a payload to the channel; the non-blocking send may still lose it, and the heartbeat it stores is modelled in WatchdogTimer only.
- Scheduler.PriorityScheduler.RunDispatchLoop: nobody drains the output meanwhile; the interleaving with a consumer is in Pipeline.
- WatchdogTimer: the clock is monotone and reads at least 1 ms; a clock before the epoch is not modelled. How soon the client acts on the reconnect flag is not claimed.
- HotPathFleet.StressPinsDegraded: the calls of different hot paths take turns; SharedStress covers overlapping calls, for latencies in place of packets.
- HotPathFleet.OnlyHumansUntilRecovered: for calls that take turns; under overlap a call with a spike need not complete in DEGRADED, see SharedFailSafe.SpikesDegradeExactly.
- HotPathFleet.BotAfterMissNeedsRecovery: for calls that take turns, for the same reason.
- Pipeline: interleaved packets carry no queue-entry stamps, and drift samples are recorded only in Scheduler and HotPath.
- The per-strategy write counters, `top_domains`, `snapshot` and the remaining SharedMetrics fields.
