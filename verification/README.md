# A verified model of LoadTool's scheduler and metrics

LoadTool runs load-test scripts in virtual users (VUs). This project models the
parts of it where a mistake would be hard to see in a test run, and proves what
its design promises of them. `dafny verify dfyconfig.toml` checks everything.

- **Ramping VUs** (`Ramping.dfy`). There is no controller: each VU inverts the
  piecewise-linear stage line in whole microseconds, sleeps and looks again. The
  line is defined over the reals, stage by stage; the integer code is proved to
  find its first crossing, in checked 64-bit arithmetic, and the VU's whole loop
  and the count of active VUs are proved against the same definition.
- **Constant arrival rate** (`ArrivalRate.dfy`). The due times with Go's
  wrap-around, and the token protocol between one scheduler and the VUs as
  interleaved steps, with a clock and cancellation at any moment.
- **Metrics** (`Buckets.dfy`, `Histogram.dfy`, `Recording.dfy`, `Sampler.dfy`,
  `SampleSeries.dfy`, `SamplerRuns.dfy`, `SamplerSetup.dfy`, and `RecordingCalls.dfy`,
  `Recorders.dfy`, `RecorderRuns.dfy`, `Summaries.dfy`, `Merging.dfy`,
  `MergeRuns.dfy`, `SummaryMeaning.dfy`). Log-linear buckets; lock-free recording, one atomic operation
  per step; percentiles against the true nearest-rank value; the sampler's loads
  interleaved with recorders; and recorders that share shards and tables of check
  names, whose merge is proved equal to a direct fold over the log of calls, and that
  to what the calls' arguments say.
- **WebSocket sessions** (`WsHandOff.dfy`, `WsTimers.dfy`, `WsScript.dfy`,
  `WsSession.dfy`, `WsBlocking.dfy`). The goroutines of one connection as interleaved
  steps, up to their release; a session's timers; what scripts may do and what that
  makes of a session, as a value; and the sessions of both styles.
- **Descriptor ordering** (`Descriptors.dfy`): a walk of an import graph.
- **The interrupt hand-off** (`Interrupts.dfy`) between a context's callback and
  the VU's goroutine, with the wait and without it.

Time is an arbitrary integer that does not go back; the network, the clock, map
orders and what the script's JavaScript does come in as arguments or as free
choices, so every result is for all of them. Objects whose methods update them
are classes with ghost logs of what they were asked to do; concurrent code is a
state machine whose steps are single channel and atomic operations. `int64` is a
checked newtype: a member that uses it never leaves the range.

## Where the code and its documentation differ

The model follows the code.

- A percentile is documented as within 0.78 % of the exact value. With the bound
  read as 1/128, this holds for latencies up to about 1.005 hours and no further
  (`Histogram.AccuracyLimit`): longer ones share the last bucket. 1/128 itself is
  0.78125 %.
- ADR-004 counts 2,368 buckets; the code makes 2,345 (`Buckets.LastBucket`).
- The sampler is documented to leave totals over the run unaffected. Requests do
  add up; a failure caught between the two atomic adds that record it can be lost
  (`SamplerRuns.SplitFailureIsLost`): exactly if some snapshot shows more requests
  it does not count as failures than succeed in the whole run
  (`SamplerRuns.RunAddsUp`).
- A constant-arrival-rate scenario stops when it should exactly if its last
  product fits in 64 bits (`ArrivalRate.StopsWhenDone`); configurations that
  validation accepts can violate this.
- `ws_session_failed` is documented as a failed handshake or an abnormal end. In
  the blocking style a receive that timed out also sets it, even if the socket
  then closes cleanly (`WsBlocking.TimeoutThenCleanClose`): the recorded outcome is
  the documented one unless a receive timed out on a socket whose handshake
  succeeded and which did not end abnormally (`WsBlocking.DocumentedOutcomeIff`).
  The callback style always records the documented one (`WsSession.Session.Run`).

## Model

| member | source | states |
|---|---|---|
| Ramping.Crossing | internal/engine/executors.go:129-163 | For whole-microsecond stages, the least offset from t on at which VU i is in the wanted state (stage line at least i+1, the last of several jumps at one instant in force), and false exactly when there is none; every intermediate value fits in int64 |
| Ramping.Next | internal/engine/executors.go:116-127 | The same, always before the stages end; false exactly when the state is never reached before then |
| Ramping.CeilDiv | internal/engine/executors.go:165 | The least q with b*q at least a, without overflow |
| Ramping.ComputeLength | internal/engine/executors.go:80-86 | The sum of the stage durations, without overflow |
| Ramping.MaxVUs | internal/engine/executors.go:72-78 | The largest of the value the stage line starts from and its targets: no smaller than any, and equal to one |
| Ramping.PeakBounds | internal/engine/executors.go:72-78 | No stage starts from a value above the maximum |
| Ramping.ActiveAt | internal/engine/executors.go:167-182 | Counts the active VUs as the inverted stage line defines them: VU i is active exactly if i is below the result, which never exceeds MaxVUs; 0 once the stages have ended |
| Ramping.CountIsSize | internal/engine/executors.go:58-60 | VUs join in order and leave in reverse: the active ones are always the first ones |
| Ramping.FloorCounts | internal/engine/executors.go:175-177 | The integer floor of the line is the number of levels it has reached |
| Ramping.StatesPartitionTime | internal/engine/executors.go:130-163 | At every offset before the end a VU is either active or inactive, never both; at none after it |
| Ramping.LineIsScaled | internal/engine/executors.go:143 | The integer comparison the code makes decides the real-valued line against a level |
| Ramping.NoCrossing | internal/engine/executors.go:146-148 | A segment that ends on the side of a level it is on never leaves that side before its end |
| Ramping.StartSide | internal/engine/executors.go:150-155 | Where a segment is not yet in the wanted state it also started on that side, so neither quotient has a wrong sign |
| Ramping.RisingCrossing | internal/engine/executors.go:151-152 | A rising segment is at the level exactly from the rounded-up crossing on |
| Ramping.FallingCrossing | internal/engine/executors.go:153-154 | A falling segment is below the level exactly from one microsecond past the rounded-down crossing on |
| Ramping.CrossingFits | internal/engine/executors.go:88-90 | Under the limits validate enforces, the products of a crossing and their quotients fit in int64 |
| Ramping.SegmentTurns | internal/engine/executors.go:146-157 | The crossing computed in a segment is its first, or there is none in it |
| Ramping.StageSearched | internal/engine/executors.go:139-160 | A stage passed over holds no offset from t on in the wanted state |
| Ramping.IterationDeadline | internal/engine/executors.go:211-226 | An iteration is cancelled GracefulRampDown after the VU is next inactive, if it ever is, and at the hard stop at the latest |
| Ramping.DriveOnce | internal/engine/executors.go:190-205 | One pass stops only at the end, or when the VU is never active again; otherwise it sleeps to the next active offset or starts one iteration now |
| Ramping.DriveVU | internal/engine/executors.go:184-209 | For every clock that does not go back: iterations start only before the end and while active, sleeps cover only inactive offsets and advance time, deadlines are as above, and the loop stops for no other reason |
| ArrivalRate.DueBeforeEnd | internal/engine/executors.go:267-270 | Without wrap-around start k is due before the end exactly when k is below the number of starts, Duration*Rate/TimeUnit rounded up |
| ArrivalRate.NoDrift | internal/engine/executors.go:228-230 | Without wrap-around, Rate starts later is exactly TimeUnit later |
| ArrivalRate.DueTimesGrow | internal/engine/executors.go:267-270 | Up to the last product that fits in int64, due times never go back |
| ArrivalRate.StopsWhenDone | internal/engine/executors.go:285-289 | The loop would stop after exactly the right number of starts if and only if that number times TimeUnit fits in int64; otherwise the product wraps and it does not |
| ArrivalRate.SmallScheduleFits | internal/engine/executors.go:267-289 | A schedule with Duration*Rate + TimeUnit within int64 meets that condition |
| ArrivalRate.LongFastScheduleOverruns | internal/engine/executors.go:259-270 | A configuration validate accepts that does not: ten million starts a second for an hour |
| ArrivalRate.RunKeepsInv | internal/engine/executors.go:272-329 | In every interleaving of the scheduler, the VUs and cancellation, the token, log and due-time invariants hold |
| ArrivalRate.TokensConserved | internal/engine/executors.go:233-239 | Tokens in the channel, owed by a VU or held by the scheduler never exceed the number of VUs, and equal it until the scheduler returns |
| ArrivalRate.ReturnNeverBlocks | internal/engine/executors.go:322 | A VU returning its token always finds room in the channel |
| ArrivalRate.DropsOnlyWhenAllBusy | internal/engine/executors.go:298-303 | A start is dropped only when every VU still owes its token |
| ArrivalRate.HeldStartFindsVu | internal/engine/executors.go:304-309 | Unless the context is done, a start in hand has a VU at the receive or on its way to it |
| ArrivalRate.StartsAccounted | internal/engine/executors.go:285-310 | Every start processed is exactly one of handed to a VU and dropped, the counts add up, and what became of a start is never rewritten |
| ArrivalRate.CompleteSchedule | internal/engine/executors.go:285-311 | An uncancelled schedule whose last product fits in int64 processes exactly Duration*Rate/TimeUnit starts, rounded up, handed over or dropped |
| ArrivalRate.NeverEarly | internal/engine/executors.go:290-302 | A start is never processed before it is due, starts are processed in order, and one that is due is not slept on |
| ArrivalRate.CancelStops | internal/engine/executors.go:297-328 | After a cancellation a scheduler that waits for the start, for a due time or for a VU, and a VU that waits for a start, can stop by themselves |
| ArrivalRate.NeverStuck | internal/engine/executors.go:278-328 | No interleaving gets stuck: until every goroutine has returned, one of them can move without outside help, or the scheduler waits for a time and can move from then on |
| Buckets.BucketIsInterval | internal/metrics/histogram.go:10-13 | Bucket i holds exactly the values from its start up to the next bucket's start, over all powers of two |
| Buckets.Adjacent | internal/metrics/histogram.go:10-13 | Buckets leave no gap and do not overlap |
| Buckets.LowGrows | internal/metrics/histogram.go:10-13 | Bucket starts are strictly increasing |
| Buckets.IndexMonotone | internal/metrics/histogram.go:25-34 | A larger value is never in an earlier bucket |
| Buckets.IndexSkipsNothing | internal/metrics/histogram.go:25-34 | From one value to the next the index grows by at most 1 |
| Buckets.MidInBucket | internal/metrics/histogram.go:36-45 | A bucket's midpoint is in that bucket, at its start plus half its width |
| Buckets.LogLinear | internal/metrics/histogram.go:26-34 | The layout as a formula: from the k-th power of two on there are 64 equal buckets, up to the next |
| Histogram.TrackedIsBucket | internal/metrics/histogram.go:63-65 | A latency of up to an hour is counted in the bucket it lies in, a longer one in the last |
| Buckets.MidError | internal/metrics/histogram.go:12-13 | Reporting the midpoint of a value's bucket is off by at most 1/128 of the value |
| Buckets.LastBucket | internal/metrics/histogram.go:18-24 | There are 2345 buckets, the last of which starts at 3,573,412,790,272 ns |
| Histogram.RecordedIsHistOf | internal/metrics/histogram.go:63-72 | Recording a value turns the histogram of the values so far into that of one value more |
| Histogram.Combine | internal/metrics/histogram.go:98-110 | Merging histograms gives exactly the histogram of all their values together: counts, n, sum, min and max |
| Histogram.Rank | internal/metrics/histogram.go:116-118 | The exact nearest rank, max(1, ceil(p*n/100)), is between 1 and n |
| Histogram.Percentile | internal/metrics/histogram.go:112-127 | Between min and max; the midpoint of the one bucket in which the running count reaches the rank if that is between them, else the nearer of the two; max itself if no bucket reaches the rank |
| Histogram.SomeHolder | internal/metrics/histogram.go:119-126 | If the counts reach the rank some bucket holds it, so the fallback is not used |
| Histogram.NearestRankInSortedOrder | internal/metrics/histogram.go:112-114 | The r-th smallest value, as counted, is the one at index r-1 in sorted order |
| Histogram.RankBucketIsTrueBucket | internal/metrics/histogram.go:119-123 | The bucket in which the running count reaches the rank is the bucket of the true nearest-rank value |
| Histogram.BoundsHelp | internal/metrics/histogram.go:123 | Bringing a value between bounds around the true value never worsens the error bound |
| Summaries.OnePercentile | internal/metrics/histogram.go:112-127 | For the histogram of any values, at least one, the percentile is the midpoint of the nearest-rank value's bucket, brought between the least and the greatest: some bucket always reaches the rank, so the fallback is not used |
| Summaries.PercentilesInOrder | internal/metrics/histogram.go:112-127 | Of the same values a greater percentile is never less, and all are between the least value and the greatest |
| Histogram.MergedPercentile | internal/metrics/histogram.go:98-127 | For any latencies over any histograms, the merged percentile is within 1/128 of the true nearest-rank value if that is at most an hour |
| Histogram.AccuracyLimit | internal/metrics/metrics.go:3-5 | All percentiles of all latencies up to m are within 1/128 if and only if 127*m is at most 128 times the last bucket's midpoint |
| Histogram.AccurateIff | internal/metrics/metrics.go:3-5 | Input by input: a nearest-rank value of an hour or more is reported within 1/128 if and only if 127 times it is at most 128 times the last midpoint, or the least latency if that is greater |
| Histogram.InaccurateBeyondLimit | internal/metrics/metrics.go:3-5 | Two latencies, 0 and any m beyond that limit, whose upper percentile is off by more |
| Recording.RunKeepsInv | internal/metrics/histogram.go:63-72 | In every interleaving of calls of record, each split into its atomic operations, the counters are the sums of what the calls have added and the bounds cover what they have settled |
| Recording.BoundsOnlyWiden | internal/metrics/histogram.go:68-71 | In every interleaving min only falls and max only rises |
| Recording.FailedSwapWasOvertaken | internal/metrics/histogram.go:68-71 | A compare-and-swap fails only because another recorder has moved the bound past the value loaded |
| Recording.CallsFinish | internal/metrics/histogram.go:68-71 | Both retry loops end: each operation of a call brings it closer to its end and no other call sets it back |
| Recording.QuiescentIsHistOf | internal/metrics/histogram.go:47-72 | Once all calls have returned, the histogram is exactly that of the durations given to them, negative ones counting as 0: buckets, n, sum, min and max |
| Recording.ValuesAreBegun | internal/metrics/histogram.go:63-64 | Every call records the duration it was given, or 0 if that is negative |
| Recording.CountersAreSums | internal/metrics/histogram.go:65-67 | At every moment of every run the counters are sums over the calls, so a reader reads such sums |
| Recording.CountersGrow | internal/metrics/histogram.go:65-67 | No counter ever falls |
| Recording.BucketsAreNPlusHalfRecorded | internal/metrics/histogram.go:65-66 | The buckets add up to n and the calls caught between the two adds |
| SamplerSetup.NewSampler | internal/metrics/sampler.go:43-56 | A sampler over the recorders' distinct shards, each once; recorders without one are passed over |
| Sampler.Sampler.constructor | internal/metrics/sampler.go:46-48 | Two empty buffers, and nothing reported yet |
| Sampler.Sampler.Gather | internal/metrics/sampler.go:61-71 | The loads of one call summed over the shards: per bucket, latency sum and failures |
| Sampler.Sampler.Subtract | internal/metrics/sampler.go:73-80 | The interval's counts and their total; no unsigned subtraction underflows |
| Sampler.Describe | internal/metrics/sampler.go:84-88 | The mean and percentiles of the interval, read off buckets that add up to its requests, or zeros if it has none |
| Sampler.IntervalTotal | internal/metrics/sampler.go:75-80 | The interval's bucket counts add up to its requests, so some bucket holds every rank |
| Sampler.PointAccurateIff | internal/metrics/sampler.go:15-18 | For any latencies that fall into the interval's buckets, each percentile of its point is within 1/128 of their true nearest-rank value if and only if 127 times that is at most 128 times the last midpoint, as it is up to an hour |
| Sampler.Sampler.Sample | internal/metrics/sampler.go:58-94 | One point: the requests since the last call, the failures not reported yet as far as there are requests for them (the rest is kept for the next), and the mean and percentiles of just these requests |
| SampleSeries.Series | internal/engine/scenario.go:167-189 | The points of a run: never more failed than requests, and the requests add up to what the last snapshot shows |
| SampleSeries.ReportedCoversSeen | internal/metrics/sampler.go:81-91 | The key invariant: the failures reported are never behind the failed buckets seen |
| SampleSeries.FailuresAddUp | internal/metrics/sampler.go:29-31 | If every snapshot counts each failure whose bucket it saw, all failures are reported in the end |
| SampleSeries.ReportedAtMost | internal/metrics/sampler.go:81-91 | Looked at from any call on, the failures counted then and the requests since bound the failures reported |
| SampleSeries.ReportedAttains | internal/metrics/sampler.go:81-91 | From some call on that bound is met: the failures reported are the least of these bounds |
| SampleSeries.FailuresAddUpIff | internal/metrics/sampler.go:29-31 | All failures the last snapshot counts are reported if and only if no snapshot, nor the start, shows more requests beyond the failures it counts than the last one does |
| SamplerRuns.RunKeepsInv | internal/metrics/sampler.go:60-71 | In every interleaving of single loads with recorders' single adds, no load falls below the last snapshot's value |
| SamplerRuns.FinalSnapshotShowsAll | internal/engine/scenario.go:121-129 | The sample taken after every VU has returned shows every request and failure recorded |
| SamplerRuns.RunAddsUp | internal/metrics/sampler.go:29-31 | In every interleaving the points' requests add up exactly; their failures never exceed those recorded, and equal them if and only if no snapshot shows more requests it does not count as failures than succeeded in the whole run |
| SamplerRuns.UnsplitRunAddsUp | internal/metrics/sampler.go:29-31 | If no load of a failure count falls between a failed request's two adds (record as one step), failures add up exactly too |
| SamplerRuns.SplitFailureIsLost | internal/metrics/sampler.go:29-31 | A run in which such a load does, and whose points never report the failure |
| RecordingCalls.Partition | internal/metrics/metrics.go:22-26 | A log of calls split over the distinct recorders, shards or tables it went through is still the same calls: none lost, none counted twice |
| RecordingCalls.FirstRunsOrder | internal/metrics/checks.go:5-9 | The order of first runs lists every check name run, once, each before the names first run later |
| Recorders.Shard.constructor | internal/metrics/histogram.go:87-89 | A shard starts with two empty histograms and no status counted |
| Recorders.Shard.RecordLatency | internal/metrics/metrics.go:70-74 | The histogram of the outcome, and no other, gains the latency itself, or 0 if it is negative: one count in the bucket it lies in, n, sum, min and max; and both stay exactly those of the latencies taken |
| Recorders.Shard.CountStatus | internal/metrics/metrics.go:88-91 | The count of the code itself, or of 0 if it is out of range, and no other, goes up by one; and the counts stay exactly those of the codes taken |
| Recorders.CheckNames.Id | internal/metrics/checks.go:20-29 | A known name keeps its index, a new one gets the next; the names stay those of all checks run through the table, in first-run order |
| Recorders.CountersAreCounts | internal/metrics/metrics.go:113-127 | Each counter of a recorder is the number of its calls of that kind, and its example message is its first script error's |
| Recorders.TallyIsCount | internal/metrics/checks.go:70-78 | A tally is the number of runs that passed and failed and the first message that is not empty |
| Recorders.Grow | internal/metrics/checks.go:67-69 | Slots added up to a name's index are those of names the recorder has not run, so they are empty as they should be |
| Recorders.OneMoreCheck | internal/metrics/checks.go:70-78 | One more run is counted in its own name's slot and no other |
| Recorders.Recorder.NeedShard | internal/metrics/metrics.go:67-69 | A recorder without a shard gets its own, an empty one; one with a shard keeps it |
| Recorders.Recorder.Record | internal/metrics/metrics.go:65-75 | The latency goes to the recorder's shard, made on first use, and to nothing else |
| Recorders.Recorder.RecordStatus | internal/metrics/metrics.go:83-92 | So does a status code |
| Recorders.Recorder.RecordUnsent | internal/metrics/metrics.go:77-81 | Counts an unsent request; no latency is recorded |
| Recorders.Recorder.RecordProtocol | internal/metrics/metrics.go:94-105 | Counts a response under its protocol, by the names of the protocols, and no other |
| Recorders.Recorder.RecordIteration | internal/metrics/metrics.go:113-118 | Counts an iteration |
| Recorders.Recorder.RecordScriptError | internal/metrics/metrics.go:120-127 | Counts a script error, and keeps its message if it is the first |
| Recorders.Recorder.CheckIndex | internal/metrics/checks.go:59-66 | The index of a check, from the cache or the table, is in the table's range and is that name's |
| Recorders.Recorder.RecordCheck | internal/metrics/checks.go:53-79 | The run is counted under its name; the shared table only grows, so cached indexes stay in range |
| RecorderRuns.NewRecorders | internal/metrics/metrics.go:50-63 | Recorder i uses shard i modulo 16 (or the number of recorders, if fewer) and family shard i modulo 16, all share one table, and nothing is recorded yet |
| RecorderRuns.OtherValid | internal/metrics/checks.go:5-9 | A call on one recorder leaves every other valid, though they may share its shard and table |
| RecorderRuns.KeptAfter | internal/metrics/metrics.go:22-26 | One call more keeps that every recorder, shard and table holds exactly the calls that went through it |
| RecorderRuns.Apply | internal/metrics/metrics.go:65-127 | So does making the call, on recorders sharing in any way |
| Merging.MergeStatuses | internal/metrics/metrics.go:255-270 | Status codes strictly ascending, every count positive and exact, no code left out, for every order of the shards |
| Merging.AnyOrder | internal/metrics/metrics.go:256-262 | The order in which the map yields the shards does not matter to what they hold together |
| Merging.ListNames | internal/metrics/checks.go:84-102 | Every table's names, each where it first appears, recorder by recorder |
| Merging.AddTallies | internal/metrics/checks.go:103-113 | A recorder's tallies are added to the checks of their names; every index is within its table |
| Merging.MergeChecks | internal/metrics/checks.go:81-115 | Each name once, with the merged tallies of all recorders |
| Merging.Gather | internal/metrics/metrics.go:205-220 | The recorders' own counters summed, and each shard collected once |
| Merging.Figures | internal/metrics/metrics.go:225-252 | Requests = Successes + Failures, Sent = Requests - unsent, the error rate over the reals, exact min, max and mean, percentiles over all sent and over successes, zeros when there are none |
| MergeRuns.ShardsPartition | internal/metrics/metrics.go:215-219 | What the distinct shards hold together is what all calls reported |
| MergeRuns.ListedAreRun | internal/metrics/checks.go:88-102 | A name is listed exactly if some call ran it, for shared or private tables |
| MergeRuns.FirstRunOrder | internal/metrics/checks.go:88-89 | Recorders sharing one table list the checks in the order first run, over the whole run |
| MergeRuns.MergeSummarises | internal/metrics/metrics.go:199-253 | Merged parts agree with the run's log of calls |
| MergeRuns.Merge | internal/metrics/metrics.go:199-253 | Over any recorders sharing shards and tables in any way, the summary equals a direct fold over the log of recording calls, its checks come in first-run order if they share one table, and the messages it keeps are the first ones that are not empty, recorder by recorder |
| MergeRuns.NoExampleIff | internal/metrics/metrics.go:212-214 | There is no example message if and only if every recorder's first script error has none (or there was no error) |
| MergeRuns.ExampleIsFirst | internal/metrics/metrics.go:212-214 | Otherwise the example is that of the first recorder whose first script error has a message |
| SummaryMeaning.FirstScriptErrorIsFirst | internal/metrics/metrics.go:120-127 | The message a recorder keeps is that of its first script error |
| SummaryMeaning.FirstErrorIsFirst | internal/metrics/checks.go:71-78 | The error kept of a check is the first that is not empty among its failed runs, and there is none exactly if there is no such run |
| SummaryMeaning.SummaryTells | internal/metrics/metrics.go:133-191 | The summary of a run, in terms of the arguments of the calls alone: how many requests, failures, iterations, script errors, responses by protocol and by code, and passes and fails of each check; the least, the greatest and the mean latency; and percentiles that are in order, between the two, and within 1/128 of those of the sorted latencies up to an hour |
| MergeRuns.RunAndMerge | internal/metrics/metrics.go:50-253 | From unused recorders, through any sequence of calls on them, to a summary that tells of the calls all that SummaryTells says, and keeps the messages and the order of the checks |
| Summaries.PercentileWithin | internal/metrics/metrics.go:140-143 | A summary's percentile is within 1/128 of the true nearest-rank value if that is at most an hour |
| Summaries.HistOfPermutation | internal/metrics/metrics.go:199-200 | The order of the latencies does not matter to the merged histogram |
| Summaries.StatusCountsAddUp | internal/metrics/metrics.go:165-168 | The status counts add up to the number of responses whose status was recorded |
| Summaries.PercentileOf | internal/metrics/metrics.go:183-191 | The percentile over every request sent; none if none was sent or p is out of range |
| Descriptors.Builder.Add | internal/protocols/grpc/descriptors.go:133-153 | Lists a file after everything it imports and keeps what was listed; fails only on a reachable name in neither source |
| Descriptors.FinishKeepsGood | internal/protocols/grpc/descriptors.go:146-151 | Appending a file once its imports are done keeps each file after its imports, unless it is on a cycle |
| Descriptors.BuildFiles | internal/protocols/grpc/descriptors.go:127-160 | Terminates on any import graph, for every map order; lists exactly the files reachable from the server's, each once and with all that its own source, the server's first, says it imports, before it if there is no cycle; fails exactly when a reachable name is in neither source |
| Descriptors.ListedIsNeeded | internal/protocols/grpc/descriptors.go:154-158 | When the walk is over, the files listed are those reachable and all of them are known |
| Descriptors.Registry.FindFileByPath | internal/protocols/grpc/descriptors.go:56 | Finds a file exactly if its path is registered |
| Descriptors.Registry.RegisterFile | internal/protocols/grpc/descriptors.go:65 | Registers a file whose imports are registered, exactly if its path is free and the library does not refuse it, or leaves the registry as it was |
| Descriptors.Registry.RegisterWithImports | internal/protocols/grpc/descriptors.go:54-66 | The registry stays closed under imports, each file after its imports, whether or not it succeeds; it only adds what the file contains and is not refused; and if a path names one file it fails exactly if a file it contains that is not registered is refused |
| Interrupts.RunKeepsInv | internal/script/lifecycle.go:165-177 | In every interleaving of contexts ending with calls, no callback of a past call can still touch the runtime |
| Interrupts.ReleasedIsClear | internal/script/lifecycle.go:160-164 | Once release has returned the interrupt flag is clear, and no past context can set it again |
| Interrupts.InterruptedByOwnContext | internal/script/lifecycle.go:132-137 | A call is interrupted only because its own context has ended |
| Interrupts.ReleaseDoesNotHang | internal/script/lifecycle.go:171-176 | While release waits, the callback it waits for or release itself can move, and every step there is brings its return nearer |
| Interrupts.NextCallIsSafe | internal/script/script.go:493-511 | Without the wait, as in Iterate: if no interrupt is pending and no earlier callback is about to raise one, the next call is interrupted only by its own context |
| Interrupts.PreventedIsNotPending | internal/script/script.go:493-511 | Without the wait nothing is pending if every callback so far was stopped in time |
| Interrupts.ReuseIsSafeIff | internal/script/script.go:493-511 | Without the wait, some continuation aborts the next call for an earlier context if and only if an interrupt is pending or a callback that got past its stop() is about to raise one; this is so whether or not an aborted call uses the flag up |
| Interrupts.WithoutWaitNextCallAborts | internal/script/script.go:493-511 | A run in which that happens: a context ends just as its call returns |
| WsHandOff.RunKeepsInv | internal/protocols/ws/session.go:150-217 | In every interleaving of the reader, the close handshake and the VU: the channel is bounded and first in, first out, the reader stops after an error or when told to, and the phases of the release follow each other |
| WsHandOff.NoSendAfterClose | internal/protocols/ws/session.go:203-217 | Nothing is sent on a closed channel, and it is closed once |
| WsHandOff.ReceivedInOrder | internal/protocols/ws/session.go:205-211 | The VU receives what was read, in order; from a reader that was not told to stop, all of it |
| WsHandOff.ErrorComesFirst | internal/protocols/ws/blocking.go:141-146 | Before the release the channel is never found closed and empty: the error that ended the reader is received first, also by the drain of close |
| WsHandOff.NeverStuck | internal/protocols/ws/blocking.go:183-210 | In the release and in the drain of close someone can always move without the peer |
| WsHandOff.StepLowersLeft | internal/protocols/ws/blocking.go:206-210 | From the start of the release, and in the drain of close once the connection is cut, every step of any goroutine brings the end nearer |
| WsHandOff.ReleaseIsBounded | internal/protocols/ws/session.go:153-164 | In every interleaving the release is over within 600 steps of all goroutines together |
| WsHandOff.ReleasedIsQuiet | internal/protocols/ws/session.go:153-164 | When the release returns, the reader and the close handshake have returned, and the channel is closed and empty |
| WsHandOff.CancelledReaderIsFree | internal/protocols/ws/session.go:205-216 | A reader that was told to stop and holds an event gives it up, closes the channel and returns without waiting for the VU |
| WsScript.PushKeepsQueue | internal/protocols/ws/socket.go:102-108 | The queue of sends awaiting a reply stays within 1024 and in send order; at the limit only the oldest is evicted; the latencies recorded stay those of the pairs |
| WsScript.PopKeepsQueue | internal/protocols/ws/session.go:227-229 | A message takes the oldest send neither paired nor evicted; one more message is counted, and the time between the two is the latency recorded |
| WsSession.Session.Dial | internal/protocols/ws/session.go:104-145 | A failed handshake is one failed session, unless the test is ending; a good one records nothing yet |
| WsSession.Session.SendMessage | internal/protocols/ws/socket.go:76-110 | Written exactly if the session is open and the write succeeds; a reply-marked send joins the queue; a failure counts an error and ends the session |
| WsSession.Session.TakeMessage | internal/protocols/ws/session.go:225-233 | A message is counted and paired with the oldest send awaiting one, whose latency is the time between them; no message is paired twice, and pairs never cross |
| WsSession.Session.ReadFailed | internal/protocols/ws/session.go:246-265 | The session is over, whatever its handlers do: with an error for a status other than 1000 and 1001, without one for these and for the completion of its own close; in the remaining case with the classified error, unless a handler ended it first |
| WsSession.Session.End | internal/protocols/ws/session.go:267-281 | Takes effect once: later calls change nothing |
| WsSession.Session.HandleThrow | internal/protocols/ws/session.go:358-369 | A throwing handler ends the session |
| WsSession.Session.CloseSocket | internal/protocols/ws/socket.go:112-122 | Starts the one close handshake a connection has, if it is open and has none |
| WsSession.Session.FireTimers | internal/protocols/ws/socket.go:156-178 | The due timers begin in order, each once, the next one unless the session is over or one threw; after a throw the session is over |
| WsTimers.Timers.Add | internal/protocols/ws/socket.go:124-143 | Adds a timer with the next id, due after its delay; an interval of no length is refused |
| WsTimers.Timers.NextTimer | internal/protocols/ws/socket.go:146-154 | The least due time on the list, and none exactly if the list is empty |
| WsTimers.FiringOrder | internal/protocols/ws/socket.go:158-160 | The timers to fire are those due, each once, by time and by age among those of one time |
| WsTimers.SettledOneMore | internal/protocols/ws/socket.go:165-172 | Settling timers one after another, as they fire, is settling them together |
| WsTimers.NoneOverdue | internal/protocols/ws/socket.go:165-172 | Once all due timers have fired none is overdue, and a repeated one, even if late, is due again within its interval |
| WsTimers.SettledOnSchedule | internal/protocols/ws/socket.go:165-172 | A timer that has not fired is left alone, one that fires once is gone, and a repeated one is next due exactly its interval after its last time, or after now if that has passed |
| WsTimers.Timers.FireTimers | internal/protocols/ws/socket.go:156-178 | Fires the due timers in order, stopping early only after one that ended the session; what has fired is settled on schedule, the others and the order of the list are as before, and exactly the timers asked for meanwhile are added, in order, and wait |
| WsSession.Session.RecordSessionEnd | internal/protocols/ws/session.go:283-295 | Records the outcome once, unless the test is ending |
| WsSession.Session.Release | internal/protocols/ws/session.go:153-164 | Under any schedule the release ends, in a state the goroutines' steps reach, with none of them left |
| WsSession.Session.DrainForClose | internal/protocols/ws/blocking.go:183-191 | The drain of close ends, under any schedule in which the peer or the close handshake lets it, and the VU goes on to the release |
| WsSession.Session.Emit | internal/protocols/ws/session.go:336-346 | The handlers of an event begin in order, all of them unless one threw or the test ended |
| WsSession.Session.Run | internal/protocols/ws/session.go:147-198 | Returns if the setup callback throws, or once a turn brings the reader's error or its end. Then no goroutine is left and, while the test lives, one outcome is recorded exactly if the setup callback did not throw: whether the session ended with an error |
| WsSession.Session.Loop | internal/protocols/ws/session.go:171-194 | The "open" handlers begin first, then turn after turn is taken until the session is over: the handlers of each turn begin after those of the turn before, and exactly the messages of the turns taken are received. While the test lives, the state after it is the one that its actions lead to, one by one |
| WsScript.CourseGoesOn | internal/protocols/ws/session.go:175-194 | One more turn continues that course |
| WsSession.ConnectWithCallback | internal/protocols/ws/session.go:104-198 | The callback style records at most one outcome, and exactly one while the test lives unless the setup callback throws: a failed handshake or an end with an error. It returns if the handshake fails, the setup callback throws or the reader stops. Until then it takes the turns in order as Loop does, and while the test lives all that is counted and timed is what setup, handlers and turns lead to |
| WsBlocking.BlockingSocket.constructor | internal/protocols/ws/blocking.go:37-49 | A failed handshake leaves nothing to release; otherwise the socket is open with its reader running |
| WsBlocking.BlockingSocket.Finish | internal/protocols/ws/blocking.go:197-218 | Releases the connection, so neither goroutine is left, and records the one outcome |
| WsBlocking.BlockingSocket.Send | internal/protocols/ws/blocking.go:106-126 | Every written reply-marked send is counted and timed; on a finished socket it counts an error and sets the code; a failed write counts an error and finishes it |
| WsBlocking.BlockingSocket.Receive | internal/protocols/ws/blocking.go:128-172 | A message is counted and paired with the oldest timed send, whose latency is the time between them; a timeout counts an error, sets the code and leaves the socket open; anything else that ends it finishes it, with the outcome of its status |
| WsBlocking.BlockingSocket.Close | internal/protocols/ws/blocking.go:174-195 | Leaves the socket finished, with the outcome of what the drain found, and one that was finished untouched |
| WsBlocking.Instance.EndIteration | internal/protocols/ws/module.go:155-178 | Every socket the iteration left open is closed once, and is finished |
| WsBlocking.Instance.Connect | internal/protocols/ws/blocking.go:38-49 | A socket that opened is the iteration's to close |
| WsBlocking.RunIteration | internal/protocols/ws/blocking.go:24-28 | In every sequence of calls on any sockets, then the iteration's end, there is one socket for each connect, in order, refused exactly if its handshake was; it took exactly the calls made on it and, unless refused, a last close; for each no goroutine is left, end took effect at most once and, while the test lives, exactly one outcome is recorded |
| WsBlocking.TimeoutThenCleanClose | internal/protocols/ws/module.go:33-36 | A receive that timed out marks the session failed even if it then closes cleanly |
| WsBlocking.DocumentedOutcomeIff | internal/protocols/ws/module.go:33-36 | The outcome recorded for a socket is the documented one, a failed handshake or an abnormal end, except exactly where a receive timed out and neither is true |

## Left out

- MergeRuns.Merge: leaves out `DroppedIterations` and `Families`, which the engine fills in; `ErrorRate` is a quotient of reals.
- Histogram.Rank: is the exact rank; the floating-point product and its 1e-9 tolerance are not modelled.
- Histogram.Combine: sums are unbounded; wrap-around of the 64-bit counters and latency sums is not modelled.
- Ramping.Crossing: stage durations are whole microseconds; validation accepts finer ones, which the code truncates.
- Ramping.ComputeLength: assumes the limit of 1000 h on the sum; durations whose sum wraps around before validation looks at it are not modelled.
- Ramping.IterationDeadline: adds GracefulRampDown without wrap-around.
- ArrivalRate.NoDrift: is for products within int64; beyond that the due times wrap, as `ArrivalRate.StopsWhenDone` uses.
- ArrivalRate.NeverStuck: is about enabled steps; how long a step takes, how far the clock goes between two of them, and fairness between goroutines, are not modelled.
- Recorders.Recorder.Record: takes effect in one step here; its atomic operations and their interleavings are those of `Recording`, and the sampler's of `SamplerRuns`.
- RecorderRuns.NewRecorders: leaves out the metric families themselves.
- SamplerRuns.RunKeepsInv: is for one shard or more, as a run with VUs has; with none there is nothing to load.
- Descriptors.BuildFiles: ends with the ordered list; making a registry of it (`protodesc.NewFiles`) is outside this model.
- Descriptors.Registry.RegisterFile: is given the files the library refuses for reasons of its own, such as a name declared twice; they do not depend on what is registered.
- WsSession.Session.Run: a handler is a finite tree of sends, closes and a throw; the event loop is followed for any finite number of turns, which the environment chooses.
- WsSession.Session.Loop: if the test ends meanwhile only the order of turns and handlers, the messages taken and the session's end are stated, not what is counted.
- WsSession.Session.FireTimers: is given the due timers in order; the list they come from is modelled apart, in `WsTimers`.
- WsTimers.Timers.Add: counts delays in whole nanoseconds; the conversion from a JavaScript number is not modelled.
- WsHandOff.RunKeepsInv: trusts the WebSocket library for two things: Read returns once its context is cancelled or the connection is cut, with nothing but an error after the cut; and a close handshake ends by itself and leaves the connection cut. How long either takes is not modelled.
- WsSession.Session.Elapse: a session follows the goroutines in ghost state, as any state their steps may have reached; which event the VU gets next is chosen freely rather than taken from that state, so more is allowed than can happen.
- WsBlocking.BlockingSocket.Receive: the message's content, and the conversion to a JavaScript value, are not modelled.
- Interrupts.RunKeepsInv: the JavaScript engine's own reaction to the flag is one step, returning; it may leave the flag set or clear it, and every result is for both.
- Constant VUs, scenario validation, the slices of recorders per scenario, `waitUntil` and `activeVUs`: short and without branches of their own.
- HTTP, TLS, the gRPC and Kafka clients, reflection over the wire, GraphQL, option parsing, reports, the user interface and the demo server.
- Metric families, thresholds and the chart: they reuse the histograms modelled here, with floating-point presentation on top.
