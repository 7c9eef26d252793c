# gopoller, modelled and verified

gopoller polls hosts: a server takes due checks from a queue, executes each in its own
goroutine, turns results into incidents, passes them to handlers and puts the check back.
This project models the parts that carry the engine and proves what they promise.

- `Dispatcher.dfy`, `DispatcherLaws.dfy`, `Serving.dfy`, `Cancellation.dfy`: `Server.Run` as a step system of producer, select
  loop, check goroutines and canceller, with both bounded channels and the WaitGroup. Runs are
  arbitrary sequences of enabled steps, so every law holds in every interleaving, for every
  queue and every `MaxRunningChecks`. `Counting.dfy` holds the sums both step systems count with.
- `HandlerFanout.dfy`: the handler goroutines, the unbuffered error channel, the closer and
  the collector, again as a step system.
- `Checks.dfy`, `IncidentLaw.dfy`: `Check`, `Incident` and `Execute` as classes, and the laws of
  incidents over whole lives of a check.
- `MemQueue.dfy`, `Float64.dfy`: the due-time queue as a class that refines a stably sorted list,
  and the rounding of its float64 minimum.
- `BufQueue.dfy`, `PendingBuffer.dfy`: the buffered queue, sequentially as a class with ledgers,
  and its pending slice under interleaving, with Go's shared backing arrays.
- `Counters.dfy`, `Decimal.dfy`, `SnmpCommand.dfy`, `SnmpGetter.dfy`: counter differences on
  big integers updated in place, printing and parsing, aggregation of SNMP objects, chunking.
- `Statsd.dfy`: the StatsD message and the server that reads it.
- `Polling.dfy`: the loop closed, from the queue through the SNMP command and `Execute` back.

Time is an integer number of nanoseconds and `Unix()` rounds down. Clock readings, command
outcomes, answers of agents, errors of handlers and the results of writes are parameters.

## What the code does differently from what is said about it

- README.md:78 promises an incident whenever a check becomes not OK or changes between states
  that are not OK. `IncidentLaw.ReadmeRuleFailsExactly` gives the one family of exceptions, and
  `IncidentLaw.CritOkCritMakesOneIncident` the shortest run in it.
- check/check.go:224 says that two or more failing handlers would deadlock if the group were
  awaited before collecting. The channel is unbuffered: `HandlerFanout.AwaitingBeforeCollecting`
  shows that one is enough.
- The select at server/server.go:110 does not test whether the channel is closed.
  `DispatcherLaws.NilReceiveReachable` gives the run that receives nil and panics, and
  `DispatcherLaws.NilReceiveOnlyAfterCancel` says exactly when that is possible. So cancelling
  does not always make Run return: from a reachable state it is sure to if and only if the main
  loop has left its select for good (`Cancellation.SureToReturnIff`), it can panic if and only if
  it has not (`Cancellation.PanicReachableIff`), and it can return if and only if nil has not yet
  been received (`Cancellation.ReturnReachableIff`).
- memqueue/queue.go:54 says that nothing is due if the top-most check is not. Buckets have the
  precision of a second: `MemQueue.FractionHidesDueCheck` gives the queue in which a due check
  waits, `MemQueue.HeadSpeaksForAllIff` says exactly when the comment holds, and
  `MemQueue.NothingWaitsASecond` bounds the wait.
- memqueue/queue.go:41 takes a minimum through float64. `MemQueue.LoneCheckTakenIff` says exactly
  which check is stranded by that. A stranded check blocks the queue for every later one
  (`MemQueue.BlockedForEver`). `MemQueue.RoundedPriorityReorders` gives two checks that change places.
- snmp/snmp.go:74-80 adds the largest counter value, not the modulus, on rollover.
  `Counters.Counter32Error` and `Counters.Counter64Error` give the error for every pair of readings,
  and `Counters.DiffsAddUp` the one that remains over a whole run.
- check/handler/statsd/statsd.go:34-36 lets the error of Close replace every earlier one;
  `Statsd.Process` says exactly when a delivery that failed is reported, and
  `Statsd.FailedWriteGoesUnreported` gives the run in which nothing is sent and success is reported.

## Model

| member | source | states |
|---|---|---|
| Dispatcher.StepKeepsInv | server/server.go:62-160 | every step of producer, select loop, check goroutines and canceller keeps conservation, the channel capacities, the group count and the order of shutdown |
| Dispatcher.Reachable | server/server.go:62-160 | the same holds in every state of every interleaving |
| DispatcherLaws.ExclusiveOwnership | server/server.go:80-141 | a check queued once is in exactly one of queue, producer's hand, buffer, main loop's hand and a check goroutine, and is lost only by finishing with AutoReEnqueue off |
| DispatcherLaws.ExecuteNeverOverlapsItself | server/server.go:114-141 | two goroutines never execute the same check at the same time |
| DispatcherLaws.DispatchedInOrder | server/server.go:80-141 | checks are launched in the order the queue gave them, and none given is passed over before cancellation |
| DispatcherLaws.ShutdownLaw | server/server.go:71-74 | when Run returns all goroutines have ended, the channels are empty, and the queue is what it was, less the dispatched checks when they are not put back |
| DispatcherLaws.Bounds | server/server.go:63-98 | executing checks and limiter occupancy stay within MaxRunningChecks, the producer's send never blocks, and at most MaxRunningChecks + 2 checks are launched after cancellation |
| Serving.LaunchesAfterCancel | server/server.go:105-141 | counted from any moment after cancellation, at most MaxRunningChecks + 2 further checks are launched |
| DispatcherLaws.NilReceiveOnlyAfterCancel | server/server.go:105-112 | the receive yields nil exactly when the producer has closed the channel and it is drained, which takes cancellation |
| DispatcherLaws.NilReceiveReachable | server/server.go:105-112 | for every configuration and queue there is a run that receives nil, and with a limiter slot it panics |
| DispatcherLaws.StepDecreases | server/server.go:105-159 | after cancellation every step but a timer tick lowers a measure |
| DispatcherLaws.CancelledRunsAreShort | server/server.go:105-159 | so a cancelled server takes boundedly many steps |
| DispatcherLaws.Progress | server/server.go:80-159 | no reachable state is stuck before Run has ended |
| DispatcherLaws.MaximalRunsEnd | server/server.go:154-160 | a run that cannot go on has returned or met the nil |
| Serving.EveryCheckCanRun | server/server.go:80-141 | from every reachable state that is not cancelled, every check in queue, producer, buffer, main loop or (with AutoReEnqueue) a goroutine can be launched and executed without cancelling |
| Serving.EveryCheckComesBack | server/server.go:115-124 | a check that runs can be put back into the queue by its goroutine, which changes nothing else in the queue |
| Serving.AgainAndAgain | server/server.go:80-141 | with AutoReEnqueue a check can be launched and executed any number of times |
| Serving.OnlyCancelCancels | server/server.go:80-113 | a run is cancelled exactly when it contains a cancellation |
| Serving.TicksChangeNothing | server/server.go:142-150 | a run without the ticks of the warning timer comes to the same state |
| Cancellation.NilReachableIff | server/server.go:105-124 | from any reachable state the nil can still be received if and only if the main loop has not left its select for good |
| Cancellation.PanicReachableIff | server/server.go:110-124 | from any reachable state a panic can still come if and only if the main loop has not left its select for good and checks may run at all |
| Cancellation.ReturnReachableIff | server/server.go:105-160 | from any reachable state Run can still return if and only if nil has not been received |
| Cancellation.SureToReturnIff | server/server.go:105-160 | from any reachable state every continuation that comes to rest has returned if and only if the main loop has left its select for good |
| HandlerFanout.StepKeepsInv | check/check.go:201-237 | every step keeps: errors collected plus errors owed are the failures, the group counts the goroutines left, and the channel closes after them |
| HandlerFanout.NeverPanics | check/check.go:220-230 | no interleaving sends on the closed channel |
| HandlerFanout.Progress | check/check.go:224-236 | no interleaving deadlocks |
| HandlerFanout.Terminates | check/check.go:206-236 | every interleaving ends after at most four steps a handler and four more |
| HandlerFanout.CollectsExactlyTheFailures | check/check.go:232-236 | at the end the collected errors are exactly those of the failing handlers, and no goroutine is left |
| HandlerFanout.AwaitingBeforeCollecting | check/check.go:224-230 | awaiting the group before collecting ends if and only if no handler fails |
| Checks.Incident.FromResults | check/incident.go:43-55 | a new incident leads from the last state, UNKNOWN if there is none, to the current one and is open |
| Checks.Check.DueIff | check/check.go:305-311 | a check that never ran is due at every instant, one that did from the end of its interval on |
| Checks.Check.MakeNewIncidentIfJustified | check/check.go:239-246 | for every state of a check, an incident is made exactly when it is not suppressed, the result is not OK, and its state is another than that of the attached incident or, with none attached, of the last result |
| Checks.Check.ResolveOrDiscardPreviousIncident | check/check.go:250-263 | an open incident is resolved and a resolved one detached, on OK or a new incident only |
| Checks.Check.Execute | check/check.go:161-193 | the whole new state of the check and of its previous incident; the errors returned are those of the command and, in whatever order the handler goroutines run, exactly those of the failing handlers |
| IncidentLaw.ExactIncidentLaw | check/result.go:83-111 | over every run of a fresh check, a step makes an incident if and only if its result is not OK and none came before, or two OKs came since the last, or that one was about another state |
| IncidentLaw.AttachedByOkCount | check/check.go:250-263 | what is attached is open, resolved or absent as zero, one or more OKs came since the last incident |
| IncidentLaw.NewIncidentLeads | check/incident.go:43-55 | a new incident leads from the last result to this one, UNKNOWN standing for none, and earlier ones keep their states |
| IncidentLaw.ReadmeRuleFailsExactly | README.md:78 | the documented rule fails exactly when a check that was just OK falls back to the state of the resolved incident it carries |
| IncidentLaw.CritOkCritMakesOneIncident | README.md:78 | CRIT, OK, CRIT makes one incident |
| IncidentLaw.IncidentHistoryIsSafe | check/check.go:175-190 | incidents no longer attached were resolved exactly once; after a result that is not OK the attached incident is about it; from- and to-state differ but for a first UNKNOWN |
| IncidentLaw.AtMostOneOpen | check/check.go:250-263 | at most one incident ever made is open |
| IncidentLaw.SuppressedChecksHaveNone | check/result.go:84-87 | a suppressed check never has an incident |
| IncidentLaw.IncidentLawFromAnywhere | check/result.go:83-111 | the exact law for every life: whatever the check carries at the start and whenever suppression is set and lifted, which inputs make an incident, what is attached and whether it is open |
| IncidentLaw.LiftedSuppression | check/result.go:104-107 | WARN while suppressed, then another state that is not OK with suppression lifted, makes an incident; WARN again makes none |
| IncidentLaw.ResolvedOnceFromAnywhere | check/check.go:250-263 | in every such life detached incidents were resolved exactly once, and none more often than once |
| IncidentLaw.ExecuteAll | check/check.go:161-193 | executing a check on any stream of results makes and attaches exactly the incident objects of its life |
| IncidentLaw.ExecuteFrom | check/check.go:161-193 | the same for a check in any state, with suppression set and lifted between executions |
| Float64.FloatMinExactIff | memqueue/queue.go:41 | the float64 minimum is the minimum if and only if that fits into 53 bits, or is a rounded-up 2^63 that the platform restores |
| Float64.RoundToNearest | memqueue/queue.go:41 | conversion rounds to the nearest representable value, from half way to the even one |
| Float64.FloatMinExactNearEpoch | memqueue/queue.go:41 | it is exact for priorities within 2^53, with MaxInt64 as the empty sentinel |
| Float64.FloatMinLosesASecond | memqueue/queue.go:41 | one past 2^53 on either side a second is lost |
| Float64.Float64Examples | memqueue/queue.go:41 | conversions around 2^53 and at the largest int64, in digits |
| MemQueue.ArrangeIsStableSort | memqueue/queue.go:28-43 | enqueueing sorts by due second and keeps the arrival order within one |
| MemQueue.InsertSplits | memqueue/queue.go:28-43 | a new entry goes between those due in the same second or before and those due later |
| MemQueue.BucketsDetermineList | memqueue/queue.go:12-18 | the buckets determine the list they stand for |
| MemQueue.Queue.Enqueue | memqueue/queue.go:28-43 | in every state Enqueue inserts stably, and the cached minimum is right afterwards if and only if the priority had a bucket and it was right before, or the float64 detour finds the least |
| MemQueue.EnqueueNeverRun | check/check.go:305-308 | a check that never ran is due from the instant it is enqueued, behind everything due before the end of that second and before everything due later |
| MemQueue.OverdueGoesFirst | check/check.go:305-311 | a check that is overdue by a second comes out before one that never ran, whichever was enqueued first |
| MemQueue.Queue.Dequeue | memqueue/queue.go:45-78 | in every state Dequeue takes the first check of the cached minimum if there is one and it is due; with the minimum right that is the head, and nothing is left waiting that was due before the current second |
| MemQueue.Queue.SmallestPriority | memqueue/queue.go:70-74 | the next minimum is the priority of the new head, in whatever order the map is walked |
| MemQueue.NothingWaitsASecond | memqueue/queue.go:54-58 | if the head is not due, every entry was due no earlier than the start of the current second |
| MemQueue.HeadSpeaksForAllIff | memqueue/queue.go:54-58 | that nothing is due when the head is not holds from now on if and only if the head is the first to be due within its second |
| MemQueue.FractionHidesDueCheck | memqueue/queue.go:54-58 | of two checks of one second the later one, enqueued first, hides the due one |
| MemQueue.Queue.Flush | memqueue/queue.go:80-88 | Flush empties the queue |
| MemQueue.Queue.Count | memqueue/queue.go:90-95 | Count is the length of the list |
| MemQueue.Queue.All | memqueue/queue.go:98-110 | All yields every queued check once |
| MemQueue.FillAndDrain | memqueue/queue.go:28-78 | filling an empty queue and draining it when all is due yields the stable sort of the arrivals |
| MemQueue.LoneCheckTakenIff | memqueue/queue.go:41-52 | a due check alone in the queue is taken out if and only if its second fits into a float64, or is a rounded-up 2^63 that the platform restores |
| MemQueue.RoundedPriorityStrands | memqueue/queue.go:41-52 | a check due at second -(2^53 + 1) is due at every ordinary clock reading, is not taken out and blocks the queue |
| MemQueue.EnqueueWhileBlocked | memqueue/queue.go:28-43 | a check due at the cached minimum or later unblocks the queue if and only if it is due at that very second |
| MemQueue.BlockedForEver | memqueue/queue.go:28-52 | whatever is enqueued for seconds after the cached minimum and whatever the clock reads, a blocked queue yields nothing |
| MemQueue.RoundedPriorityReorders | memqueue/queue.go:41-52 | at seconds -2^53 and -(2^53 + 1) the younger check is taken first |
| PendingBuffer.StepKeepsInv | bufqueue/queue.go:70-74 | appends and swaps keep every batch intact and apart from the pending slice's array |
| PendingBuffer.NothingLostOrOverwritten | bufqueue/queue.go:118-131 | in every interleaving the Enqueue calls are, in order, what the batches hold now and what is pending |
| PendingBuffer.ReceivedExactly | bufqueue/queue.go:118-131 | in every interleaving the CheckEnqueuer received the batches handed over, each once and as swapped out; every check was received, is in flight or is pending as often as it was enqueued |
| PendingBuffer.SwappedCanBeReceived | bufqueue/queue.go:118-131 | what a swap takes out can be handed over from then on until it is, and is received as it was |
| PendingBuffer.HandedStays | bufqueue/queue.go:128-130 | no batch is handed over twice |
| PendingBuffer.EverythingCanBeReceived | bufqueue/queue.go:118-131 | from every reachable state everything enqueued so far can come to be received |
| PendingBuffer.NoCheckInTwoBatches | bufqueue/queue.go:118-131 | a check enqueued once is in at most one batch |
| BufQueue.BufferedQueue.Enqueue | bufqueue/queue.go:70-74 | the check joins the pending buffer and both ledgers still balance |
| BufQueue.BufferedQueue.Dequeue | bufqueue/queue.go:76-84 | the provider is asked exactly when the inner queue is empty; the head of the queue, or of the batch stably sorted, is delivered exactly when it is due; provided checks are delivered, queued or flushed |
| BufQueue.BufferedQueue.EnqueuePending | bufqueue/queue.go:118-131 | the pending buffer is saved as one batch if it holds anything |
| BufQueue.BufferedQueue.Flush | bufqueue/queue.go:90-99 | both buffers are empty and every outstanding check was saved exactly once, the pending ones in a batch before the queued ones |
| Results.OverridesIsWorse | check/result.go:33-44 | overriding is being worse in UNKNOWN < OK < WARN < CRIT |
| Decimal.ParseText | check/command/snmp/snmp.go:164-176 | printing and parsing give back every integer |
| Decimal.ParsesNumerals | check/command/snmp/snmp.go:164-176 | exactly a sign or none, leading zeros and the digits of a number parse, to that number |
| Decimal.DecimalExamples | check/command/snmp/snmp.go:164-176 | printing and parsing in digits, and texts that do not parse |
| Counters.CalculateCounterDiff | snmp/snmp.go:70-85 | the difference overwrites currentValue and leaves lastValue alone |
| Counters.CounterDiffLaw | snmp/snmp.go:70-85 | the difference is not negative, exact without rollover, and on rollover one less than the modular difference under the guessed modulus |
| Counters.Counter32Error | snmp/snmp.go:70-85 | the error against a real 32-bit counter, for every pair of readings |
| Counters.Counter64Error | snmp/snmp.go:70-85 | the error against a real 64-bit counter, for every pair of readings |
| Counters.DiffsAddUp | snmp/snmp.go:70-85 | over any run of readings the differences add up to the real advance, less one for each rollover, and off by the difference of the widths for each rollover whose width is guessed wrong |
| Counters.DiffsExactIff | snmp/snmp.go:70-85 | wrong guesses never cancel out: the sum is the advance less the rollovers if and only if every width was guessed right |
| Counters.ToBigInt | snmp/snmp.go:93-128 | an integer keeps its value if and only if it is a uint64 or fits into an int64; text counts for the int64 it denotes, and everything else for 0 |
| Counters.TextValue | snmp/snmp.go:117-122 | text counts for the int64 it denotes, whatever its sign and leading zeros, and for 0 if it denotes none |
| Counters.UintExactIff | snmp/snmp.go:107-123 | a uint converts exactly if and only if it fits into an int64; a uint64 always; the same number as text counts for 0 if it does not fit |
| SnmpCommand.DetermineResultStateAndReason | check/command/snmp/snmp.go:46-72 | the verdict is that of the first rule that applies |
| SnmpCommand.VerdictMeans | check/command/snmp/snmp.go:46-72 | CRIT, WARN and OK, each if and only if its condition on the status lists and the four thresholds holds, and which reason goes with it |
| SnmpCommand.VerdictSound | check/command/snmp/snmp.go:46-72 | OK if and only if no rule applies, if and only if there is no reason, and never UNKNOWN |
| SnmpCommand.CritHiddenByWarn | check/command/snmp/snmp.go:46-72 | exactly when a value that breaks a critical rule is reported as a warning |
| SnmpCommand.IndexMonitors | check/command/snmp/snmp.go:110-118 | the map yields the last monitor of each oid |
| SnmpCommand.LastMonitorWins | check/command/snmp/snmp.go:110-118 | of several monitors of one oid the last is used |
| SnmpCommand.FindMeans | check/command/snmp/snmp.go:132-140 | an object belongs to the last monitor of its oid, failing that of its oid without the leading dot, else to none |
| SnmpCommand.FirstByNameMeans | check/command/snmp/snmp.go:232-242 | the metric found is the first of that name, and there is none exactly when no metric has it |
| SnmpCommand.GetChecksLastResultMetricByLabel | check/command/snmp/snmp.go:232-242 | the first metric of that name |
| SnmpCommand.JudgeCounter | check/command/snmp/snmp.go:168-194 | the rate is the counter difference by the elapsed seconds, with zero seconds as a panic |
| SnmpCommand.RateMeans | check/command/snmp/snmp.go:178-190 | the value judged is the whole number of counts per elapsed second |
| SnmpCommand.Consider | check/command/snmp/snmp.go:152-226 | one object's metric is its value as received although its big integer is overwritten, and its verdict counts only if it overrides |
| SnmpCommand.WorstNext | check/command/snmp/snmp.go:189-215 | overriding keeps the worst opinion and the first reason for it |
| SnmpCommand.WorstIsUnique | check/command/snmp/snmp.go:129-229 | the plain meaning of aggregation determines state and reason |
| SnmpCommand.Run | check/command/snmp/snmp.go:99-230 | a completed run reports the worst opinion of all objects in spite of the CRIT short-circuit, and all metrics; any other run stops at the first object that stops it |
| SnmpCommand.OneGauge | check/command/snmp/snmp.go:195-226 | an integer gauge is judged unscaled and reported scaled, under the monitor's name and as a gauge |
| SnmpCommand.GaugeMeans | check/command/snmp/snmp.go:195-226 | an integer counts for itself and text or bytes for what they read as; that is judged, and reported multiplied by the monitor's factor |
| SnmpCommand.OneCounter | check/command/snmp/snmp.go:160-194 | a counter is reported raw, and judged by its rate if there is a last value and a last check, else not at all |
| SnmpCommand.ZeroDivisorAfterGauge | check/command/snmp/snmp.go:166-185 | a rate with a zero divisor panics unless an object before it was critical; then the counter is reported and not judged |
| SnmpCommand.NullThenStranger | check/command/snmp/snmp.go:133-150 | a null is skipped, and an object without a monitor ends the run with that error |
| SnmpCommand.FirstStopIsLeast | check/command/snmp/snmp.go:142-185 | no earlier object stops the loop |
| SnmpGetter.ChunksPartition | snmp/gosnmp_getter.go:21-46 | the requests together are the oids in order |
| SnmpGetter.ChunkSize | snmp/gosnmp_getter.go:21-46 | no request is empty or longer than MaxOids, and all but the last are full |
| SnmpGetter.ChunksCount | snmp/gosnmp_getter.go:21 | there are ceil(len / MaxOids) requests |
| SnmpGetter.SentUpToFailure | snmp/gosnmp_getter.go:33-36 | every chunk is requested unless one fails, which ends the exchange |
| SnmpGetter.AllAnswered | snmp/gosnmp_getter.go:38-46 | if all requests are answered the objects are those of all answers in order |
| SnmpGetter.FirstFailure | snmp/gosnmp_getter.go:33-36 | the first request that fails is the last one sent and its error is the result |
| SnmpGetter.Get | snmp/gosnmp_getter.go:12-53 | the loop terminates, sends exactly those requests and gathers the answers in order; no objects for some oids is an error |
| Polling.PollAll | check/check.go:161-193 | in a run of polls of one check, each when it is due, every result is what the command makes of the response and of the result before |
| Polling.EveryRateIsOfRawCounters | check/command/snmp/snmp.go:160-185 | in every run of polls what a poll makes of a counter is the rate between the raw values of the poll before and of this one, over at least the interval, if the poll before completed and no earlier object of it reports under the same name |
| Polling.TwoCounterPolls | check/command/snmp/snmp.go:160-194 | after two due polls of one counter the check's last result is the verdict on the rate between the two raw values over at least the interval, with the second as its metric |
| Polling.RateWellDefined | check/command/snmp/snmp.go:183-185 | a check that was due after I seconds has a divisor of at least I |
| Polling.RateWellDefinedIff | check/check.go:305-311 | the divisor is positive for every due run if and only if I is at least 1 |
| Polling.RunDue | check/command/snmp/snmp.go:180-185 | the SNMP command of a due check never divides by zero, and its result is what aggregation makes of the response |
| Polling.ExecuteDue | check/check.go:161-193 | executing a due check leaves that result as its last one and returns the command's error and those of the failing handlers |
| Polling.Turn | server/server.go:110-141 | one turn of queue, command, Execute and queue: the due head is executed and put back due one interval after it ended, stably sorted |
| Statsd.BuildProtocolMessage | check/handler/statsd/statsd.go:57-76 | the message is the rendering of the metrics' lines under the lower-cased prefix without trailing dots |
| Statsd.MessageOfOne | check/handler/statsd/statsd.go:63-75 | the text for one metric: none without a value, one line for a value, two for a negative one |
| Statsd.Prefix | check/handler/statsd/statsd.go:58-61 | the lower-cased prefix without exactly its trailing dots, nothing if there is none |
| Statsd.TrimRightDots | check/handler/statsd/statsd.go:60 | the prefix loses exactly its trailing dots |
| Statsd.RoundTrip | check/handler/statsd/statsd.go:63-75 | parsing a rendered message gives back its lines |
| Statsd.LinesMean | check/handler/statsd/statsd.go:69-73 | applying the lines assigns each value to its gauge, negatives included |
| Statsd.MessageMeans | check/handler/statsd/statsd.go:57-76 | a StatsD server that reads the message leaves every reported name at its last value and every other gauge alone |
| Statsd.PlusSignAdds | check/handler/statsd/statsd.go:65-73 | a single value is reported right unless it has a plus sign and the gauge is not zero |
| Statsd.PlusSignInMessage | check/handler/statsd/statsd.go:63-75 | in a whole message the last value under a name arrives if and only if it has no plus sign or the gauge stood at zero after the metrics before it |
| Statsd.SentUpToFailure | check/handler/statsd/statsd.go:44-52 | all is sent if and only if no write fails, and the write that fails was given exactly what the ones before had left |
| Statsd.Send | check/handler/statsd/statsd.go:44-52 | the loop sends the bytes of the writes before the first that fails, and returns its error |
| Statsd.Process | check/handler/statsd/statsd.go:24-55 | after dialling, an error is reported or the whole message sent if and only if Close fails, or there is nothing to send, or the deadline is set and no write fails |
| Statsd.FailedWriteGoesUnreported | check/handler/statsd/statsd.go:34-52 | whatever there is to send, if the first write fails and Close does not, nothing is sent and no error reported |

## Left out

- Network commands (ping, dns, http, smtp), `ciscoresources`, `junsubpool` and the rrdcached handler: I/O and formatting around short cascades of thresholds; not modelled.
- Handlers' Mutate calls: they may change anything; the model of Execute takes them to leave result, incidents, schedule and last check alone.
- Panics in commands, handlers and callbacks; debug logging, UUIDs, options, Acknowledge.
- The warning ticker's map of running checks: diagnostics only; the tick itself is a step.
- Schedules other than PeriodicSchedule, and durations beyond 292 years, where a Go duration overflows.
- Dispatcher.Reachable: the queue is the multiset of its checks and Dequeue may yield nil or any of them, so the order of the queue is stated in MemQueue and not here; checks added by others during Run are not modelled.
- SnmpCommand.Run: big floats are reals, so the rounding of a scaled gauge to the precision of its integer is not modelled; reading and printing them as text are parameters, and NaN thresholds do not exist.
- Polling.Turn: one check at a time; the concurrent case is the dispatcher's, where no check's Execute overlaps itself. Oids received are not empty.
- BufQueue.BufferedQueue.Flush: used by one goroutine, because All and Flush of the inner queue are two critical sections in the code; due seconds lie within 2^53 of the epoch.
- Statsd.MessageMeans: names and values contain no ':', '|' or newline and values no leading '+'; how a server reads a decimal is a parameter that maps "0" to zero; lower-casing the prefix is a parameter.
- Statsd.Send: a datagram whose write fails counts as not sent, not even in part.
- SnmpGetter.Get: connecting and closing the client.
