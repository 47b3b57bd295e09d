# nblex in Dafny

nblex parses a query, keeps state for it, and joins or aggregates log and network events as they
arrive while timers fire between them. This project models that core and proves what it does:

- **Streaming joins.** `EventBuffer` is the linked buffer both correlators share. `TimeCorrelation` is
  `nblex_event_emit` together with the time-based engine it calls back into, `NqlCorrelate` the
  `correlate` query. `BandJoin` is the nested-loop join they are measured against, and
  `TimeCorrelationRuns` holds what is true of every run.
- **Aggregation.** `AggregateExecutor` is the bucket list of `execute_aggregate` and its flush timer,
  node by node. It refines the value-level machine of `AggregateSpec`, about which the other files
  argue: `AggregateRuns` for runs in general, `TumblingRuns`, `SlidingWindows`, `UnwindowedRuns`, and for
  sessions `SessionWindows` (the reference), `SessionSteps` (one arrival, one flush), `SessionRuns` (one
  group over a run) and `SessionBlanks` (all groups); `GroupCounts` counts a group's events.
  `BucketMetrics`, `ReportedMetrics` and `Percentiles` say what is reported. `Pipelines` runs stages in
  order.
- **Filters.** `FilterEngine` evaluates, `FilterSyntax` says what the parser builds and prints trees
  back, `FilterParser` is the parser with its cursor, `FilterMeaning` says what printing and reading
  back does to decisions, `BpfPushdown` is the part handed to the packet capture.
- **nQL.** `NqlSyntax` is the grammar as the parser reads it, `NqlParser` the recursive descent with one
  cursor and one error slot, `NqlScanner` and `NqlPrinting` the scanner that cuts filters out of a
  query, `NqlRoundTrip` the round trip. `Cursors`, `Numerals` and `Text` are what both parsers stand on.
- **DNS names.** `DnsNames` is the decoder of compressed names, `DnsQuestions` the question section.

A run is a sequence of steps: an event arrives, or a timer fires at a clock value. Clock values are
arbitrary; a theorem that needs a condition on them is stated as an equivalence with it, or stands
beside one that is. Components that change their state in place are classes with loops; each method's
postcondition equates the new state with a function of the old one, and the theorems about runs are
about those functions.

Some behaviour is not what one would expect, and is stated as it is:

- A tumbling flush empties the bucket before the result event is built, so the result has count zero
  (`TumblingFlushLosesCounts`, `EventIsLostAtTheWindowsEnd`, `TumblingIsAMapIff`), and it can leave two
  buckets for one group and window (`WindowsMeetIff`, `TwoBucketsMeet`).
- The walk over sliding windows starts at a candidate that has already ended, so events dated from the
  window size on are put into no window (`NothingFromSizeOn`, `AssignmentIsExactIff`); without that
  first candidate it would be exact (`SkippingTheFirstCandidateIsExact`).
- All of a bucket's functions share one sum, minimum and maximum (`SumIsTheBatchSumIff`,
  `MinIsTheLeastIff`, `MaxIsTheGreatestIff`), and a sum goes under the bare name of its field, where it
  can hide another metric (`EveryMetricIsReadIff`, `SumHidesTheCount`).
- The `correlate` sweep uses the duration cut to 32 bits, the probe the whole one, so that from 2^32
  milliseconds on timely runs lose pairs (`CorrelateIsTheBandJoinIff`, `TruncatedWindowLosesAPair`).
- A full buffer drops what arrives, so a timely run misses pairs exactly when a dropped event had a partner
  still to come (`TimelyRunIsTheJoinIff`, `FullBufferLosesAPair`).
- An event without data matches every group, and is counted into whatever bucket is found first
  (`UnwindowedIsAMapIff`, `AllPartitionedIff`, `TumblingIsAMapIff`, `EventJoinsItsGroupIff`).
- The timer closes sessions by its own clock; ahead of the events, or behind them where the unsigned
  difference wraps, it splits a session (`ClockConditionIsExact`, `LaggingClockSplitsASession`).
- An integer in a filter becomes a real as soon as a dot stands anywhere after it, and then equals no
  integer (`RoundTripIff`, `IntegerBeforeDotNeverMatches`, `EveryAcceptedEventIsLost`).
- A question about the root discards the whole question section (`RootQuestionDiscards`). A name that is too
  long is cut; the questions after it are still read in their places when it has a pointer and fits up to
  there, and otherwise are not (`CursorIsExactIff`, `SectionKeepsPlaceIff`).
- The decoder of names runs for ever when it meets a pointer twice with no label in between
  (`LoopsForeverIff`).

## Model

| member | source | states |
|---|---|---|
| EventBuffers.EventBuffer.Push | src/correlation/time_correlation.c:138-164 | the event goes to the front of the list and the counter still equals the list's length |
| EventBuffers.EventBuffer.RemoveOlder | src/correlation/time_correlation.c:169-187 | one pass of in-place unlinking leaves exactly the events at or after the cutoff, in their order, and the counter equals their number |
| TimeCorrelation.World.Emit | src/core/nblex_event.c:58-86 | input filter, counter, call into the engine, handler, in that order; the recursive emission of correlations ends and the new state is the specified one |
| TimeCorrelation.World.CheckEvent | src/correlation/time_correlation.c:239-289 | every event of the other kind within the window is reported once, in buffer order, while the loop itself emits events |
| TimeCorrelation.World.AddToBuffer | src/correlation/time_correlation.c:138-164 | a full buffer drops the event, any other one takes it |
| TimeCorrelation.World.CleanupTimer | src/correlation/time_correlation.c:347-360 | both buffers keep what is not older than the clock minus two windows, in unsigned 64-bit arithmetic |
| TimeCorrelationRuns.Accounting | src/core/nblex_event.c:58-86 | over every run the processed counter is accepted raw events plus correlations, both correlation counters equal the number of reported pairs, and the handler got exactly those events |
| TimeCorrelationRuns.HandlerOrder | src/core/nblex_event.c:58-86 | the handler sees each correlation after its earlier member and before its later one |
| TimeCorrelationRuns.BuffersBounded | src/correlation/time_correlation.c:138-164 | no run lets a buffer grow past 10000 events |
| TimeCorrelationRuns.PairsAreSound | src/correlation/time_correlation.c:239-309 | whatever arrives and is evicted, the reported pairs are part of the join: one log and one network event within the window, none more often than it occurs |
| TimeCorrelationRuns.EvictionIsUnobservable | src/correlation/time_correlation.c:169-187 | under the lateness bound the timer changes nothing that is reported, nor its order |
| TimeCorrelationRuns.AdmittedPairIsReported | src/correlation/time_correlation.c:239-309 | when the earlier event was admitted to its buffer, an accepted later one of the other kind within the window is reported with it |
| TimeCorrelationRuns.TimelyRunIsTheJoinIff | src/correlation/time_correlation.c:239-309 | a timely run reports exactly the batch join, multiplicities included, if and only if no accepted event comes within the window of an earlier one of the other kind that found its buffer full |
| TimeCorrelationRuns.TimelyRunIsTheJoin | src/correlation/time_correlation.c:239-309 | in particular, when no accepted event finds its buffer full on arrival, a timely run of any length reports exactly the batch join |
| TimeCorrelationRuns.FullBufferLosesAPair | src/correlation/time_correlation.c:138-164 | a timely run that misses a pair, for any two accepted events of different kinds within the window: the first arrives 10001 times, then the second |
| TimeCorrelationRuns.RunIsTheJoinIff | src/correlation/time_correlation.c:239-309 | over every run, however late its events and whatever the clocks: the reported pairs are the batch join, multiplicities included, if and only if no accepted event comes within the window of an earlier one of the other kind that was dropped or evicted |
| BandJoin.JoinCount | src/core/nql_executor.c:1368-1437 | the reference join holds a pair exactly when it is in the window, once for every way to choose its members |
| BandJoin.LatenessBoundIsExact | src/core/nql_executor.c:1216-1252 | a sweep keeps everything an event could still pair with if and only if that event is dated no earlier than the clock minus the window |
| BandJoin.CleanupIsSafeUnlessItWraps | src/correlation/time_correlation.c:347-360 | a sweep never drops what a timely event can still match if and only if the clock is at least two windows, so that the subtraction does not wrap |
| NqlCorrelate.Correlator.Execute | src/core/nql_executor.c:1368-1437 | an arrival is stored on each side it matches and paired with the other side's buffer, with itself included when it matches both; the return value says whether it matched |
| NqlCorrelate.Correlator.CleanupTimer | src/core/nql_executor.c:1216-1252 | the sweep of both buffers, with the window cut to 32 bits |
| NqlCorrelate.CorrelateIsTheBandJoin | src/core/nql_executor.c:1368-1437 | over any interleaving of arrivals and sweeps within the lateness bound, and for any duration below 2^32 milliseconds or too long for a sweep to be timely, the emitted pairs are all pairs of left and right matches within the window, each exactly once |
| NqlCorrelate.CorrelateIsTheBandJoinIff | src/core/nql_executor.c:1216-1252 | for any two filters, equal ones included: every timely run emits exactly the band join if and only if the duration is below 2^32 milliseconds, or too long for a sweep to be timely, or one of the filters matches nothing |
| NqlCorrelate.EmittedPairsAreSound | src/core/nql_executor.c:1368-1437 | over every run, late events and truncated windows included, what is emitted is part of that join |
| NqlCorrelate.TruncatedWindowLosesAPair | src/core/nql_executor.c:1216-1252 | otherwise there is a timely run and a pair of the join that it does not emit, made from any event the left filter matches and any the right one does |
| NqlCorrelate.RunIsTheBandJoinIff | src/core/nql_executor.c:1368-1437 | over every run, with any duration, lateness and clocks: the emitted pairs are the band join if and only if no event comes within the window of an earlier one of the other side that a sweep evicted |
| AggregateExecutor.BucketNode.Update | src/core/nql_executor.c:993-1078 | the node's fields after an event are the specified bucket: count, shared sum and extremes, stored values, times |
| AggregateExecutor.BucketNode.Reset | src/core/nql_executor.c:506-531 | the tumbling reset: the fields are cleared and the window moved to the clock |
| AggregateExecutor.BucketNode.Result | src/core/nql_executor.c:290-420 | the result event: keys, window, and the metrics by name, a later one overwriting an earlier one of the same name; percentiles by sorting a copy of the stored values |
| AggregateExecutor.Executor.GetOrCreate | src/core/nql_executor.c:793-980 | the buckets an event is put into, found or newly prepended, for every kind of window |
| AggregateExecutor.Executor.Execute | src/core/nql_executor.c:1113-1176 | an event through the whole executor: the linked list afterwards and the result emitted are those of the specification, the bucket counter equals the list's length |
| AggregateExecutor.Executor.RemoveFromList | src/core/nql_executor.c:443-462 | the node is unlinked, the others keep their contents and order, the counter drops by one |
| AggregateExecutor.Executor.Flush | src/core/nql_executor.c:465-557 | the timer callback, which removes nodes while it walks them: what stays, what is emitted and in which order |
| AggregateRuns.EventLandsInItsWindow | src/core/nql_executor.c:904-925 | in every reachable tumbling state an event goes to exactly one bucket, whose window contains it and whose keys extend the event's own |
| TumblingRuns.EventJoinsItsGroupIff | src/core/nql_executor.c:904-925 | in every reachable tumbling state that bucket is of the event's own group if and only if the event has keys, or the newest bucket of its window has none, or there is none |
| TumblingRuns.BlankJoinsAnotherGroup | src/core/nql_executor.c:237-260 | a run in which it is not, for every query and any two accepted events of one window, the second without data: both end up in one bucket, of the first one's group |
| TumblingRuns.TumblingIsAMapIff | src/core/nql_executor.c:904-925 | over every run: every group and window has at most one bucket, which is the batch result over its accepted events, if and only if no flush comes at or after the end of a window with accepted events, and in no window an accepted event without data follows one with keys |
| AggregateRuns.NextKeepsAligned | src/core/nql_executor.c:904-925 | every step keeps each tumbling bucket's start a multiple of the size and its end one size later |
| AggregateRuns.TumblingMoves | src/core/nql_executor.c:506-531 | a bucket moved forward spans the clock, aligned as before |
| AggregateRuns.TumblingFlush | src/core/nql_executor.c:506-531 | after a flush every bucket ends after the clock, those that had ended now span it and are empty, the others are untouched |
| AggregateRuns.TumblingFlushLosesCounts | src/core/nql_executor.c:513-546 | a tumbling flush reports nothing but zero counts, and conserves the live ones if and only if no bucket with events in it has ended |
| AggregateRuns.EventIsLostAtTheWindowsEnd | src/core/nql_executor.c:513-546 | a run that loses a count, for every tumbling query and accepted event: the event arrives, the timer fires at the end of its window, and it is in no bucket and no result |
| AggregateRuns.WindowsMeetIff | src/core/nql_executor.c:513-531 | a tumbling flush leaves two buckets on one window if and only if they were on one, or both windows began by the clock |
| TumblingRuns.TwoBucketsMeet | src/core/nql_executor.c:513-531 | a run that ends with two buckets of one group and window, for any two accepted events of one group in different windows and any flush once the later window has begun |
| AggregateRuns.FlushMovesCounts | src/core/nql_executor.c:490-554 | a session or sliding flush moves counts from live buckets to results and loses none |
| AggregateRuns.SessionsConserveEvents | src/core/nql_executor.c:855-901 | for arbitrary timestamps and clocks, counts in emitted and live sessions add up to the events that passed the filter |
| AggregateRuns.SlidingNeverReports | src/core/nql_executor.c:938-980 | over a run of events dated from the window size on, a sliding query never holds a bucket nor reports anything |
| SlidingWindows.AssignmentIsSound | src/core/nql_executor.c:938-980 | the windows chosen are distinct, aligned to the slide, contain the event, and are at most a thousand |
| SlidingWindows.AssignmentIsExactIff | src/core/nql_executor.c:938-980 | they are all the windows that contain the event if and only if it is dated before the window size and lies in at most a thousand, or lies in none |
| SlidingWindows.NothingFromSizeOn | src/core/nql_executor.c:940-961 | an event dated from the window size on is put into no window |
| SlidingWindows.SkippingTheFirstCandidateIsExact | src/core/nql_executor.c:938-980 | the intended walk, which leaves out the first candidate, finds exactly the windows that contain the event |
| SessionWindows.GapPartitionIsUnique | src/core/nql_executor.c:855-901 | the reference: a list of events has exactly one division into maximal runs whose gaps stay below the timeout |
| SessionWindows.SessionBucketFields | src/core/nql_executor.c:1000-1006 | the bucket of a run carries the run's first time, last time and count |
| SessionRuns.SessionsAreTheGapPartition | src/core/nql_executor.c:855-901 | in particular they are, when every flush clock is in order with the accepted events around it: no firing of the timer splits, merges, drops or repeats a session |
| SessionRuns.ClockConditionIsExact | src/core/nql_executor.c:499-505 | for accepted events in time order and arbitrary flush clocks, emitted sessions plus live buckets of a group are exactly the buckets of its gap partition if and only if no flush between two of its events that belong together finds the first one timed out, in unsigned 64-bit arithmetic |
| SessionRuns.LaggingClockSplitsASession | src/core/nql_executor.c:499-505 | a run that splits a session because the clock is behind the event and the subtraction wraps |
| SessionBlanks.AllPartitionedIff | src/core/nql_executor.c:855-901 | for accepted events in time order, with or without data, and arbitrary flush clocks: all groups have their gap partitions if and only if no event without data arrives while another group has a live session it is in time for, and no flush splits a session |
| SessionBlanks.IntruderBreaksThePartition | src/core/nql_executor.c:855-901 | a run without the partition, for every grouped query: an event with data and one without, in time for its session |
| UnwindowedRuns.UnwindowedIsAMapIff | src/core/nql_executor.c:813-853 | over every run: every group has at most one bucket, which is the batch result over its events so far, and each of its events emitted the result up to it, if and only if no accepted event without data comes after an accepted one with data |
| UnwindowedRuns.EventWithoutDataJoinsAnyGroup | src/core/nql_executor.c:237-260 | a run in which it does: the event without data is counted into another group's bucket |
| BucketMetrics.SumIsTheBatchSumIff | src/core/nql_executor.c:1008-1038 | sum(x) is the sum of x on every stream if and only if the query has no other sum or avg |
| BucketMetrics.MinIsTheLeastIff | src/core/nql_executor.c:1008-1038 | min(x) is the least x on every stream if and only if every sum, avg and min names x |
| BucketMetrics.MaxIsTheGreatestIff | src/core/nql_executor.c:1008-1038 | max(x) is the greatest x on every stream if and only if every sum, avg and max names x |
| BucketMetrics.TotalIsReportedIff | src/core/nql_executor.c:318-366 | the reported sum is the batch sum, and the reported avg the batch mean, on every stream if and only if the query has no other sum or avg |
| BucketMetrics.MinIsReportedIff | src/core/nql_executor.c:318-366 | the reported min is the least value of its field on every stream if and only if every sum, avg and min names that field |
| BucketMetrics.MaxIsReportedIff | src/core/nql_executor.c:318-366 | the reported max is the greatest, if and only if every sum, avg and max does |
| BucketMetrics.CountIsReported | src/core/nql_executor.c:318-366 | the reported count is the number of events in the bucket, whatever else is computed |
| ReportedMetrics.EveryMetricIsReadIff | src/core/nql_executor.c:315-412 | on every non-empty stream every function's value can be read off the result under its name if and only if functions of one name have one kind, and percentiles of one name are the same up to the hundredth |
| ReportedMetrics.LastValueStays | src/core/nql_executor.c:315-412 | of several values put under one name the last function's is the one reported |
| BucketMetrics.PercentileOfOneField | src/core/nql_executor.c:1040-1044 | asking for several percentiles of one field, which stores every value several times, changes none of them |
| BucketMetrics.FoldedDistinct | src/core/nql_executor.c:1046-1066 | a bucket's stored values are the greedy net of everything seen, and the distinct count is their number |
| BucketMetrics.NetIsANet | src/core/nql_executor.c:1046-1066 | stored values are pairwise 1e-9 apart, every value seen is closer than that to one of them, and each was seen |
| BucketMetrics.DistinctIsExactIff | src/core/nql_executor.c:1046-1066 | the count is the number of different values if and only if different values are at least 1e-9 apart |
| Percentiles.SortSorts | src/core/nql_executor.c:362-391 | the reference sort yields an ascending permutation |
| Percentiles.ExchangeSort | src/core/nql_executor.c:362-391 | the exchange sort on the array does the same in place |
| Percentiles.ValueIsTheRank | src/core/nql_executor.c:362-391 | a value is the percentile if and only if at most idx values are smaller and at least idx + 1 are not above it |
| Percentiles.ValueIsMonotone | src/core/nql_executor.c:362-391 | a higher percentile is no smaller, and every percentile is one of the values |
| Percentiles.PercentilesAgreeIff | src/core/nql_executor.c:362-391 | two percentiles are the same value of all values if and only if they are the same up to the hundredth |
| Percentiles.RepeatingKeepsPercentiles | src/core/nql_executor.c:1040-1044 | repeating every value the same number of times changes no percentile |
| Pipelines.ExecutePipeline | src/core/nql_executor.c:1457-1469 | stages run in order on the one aggregation state until one of them lets nothing through |
| Pipelines.PipelineFuses | src/core/nql_executor.c:1457-1469 | filter and show stages before an aggregation are, for return value, buckets and emissions, that aggregation with the conjunction of all conditions as its WHERE |
| Pipelines.PipelineRunsFuse | src/core/nql_executor.c:1457-1469 | the same over whole runs with timer ticks anywhere |
| FilterParser.ParseValue | src/core/filter_engine.c:213-297 | the value parser on its cursor reads what the grammar says and stops where it says |
| FilterParser.ParseExpr | src/core/filter_engine.c:91-305 | the recursive atom parser terminates and builds what the grammar says, parentheses and NOT included |
| FilterParser.ParseFull | src/core/filter_engine.c:308-357 | the whole parser: the chain loop associates to the left and fails exactly when an atom does |
| FilterSyntax.PrintedFiltersParse | src/core/filter_engine.c:91-357 | every printed left-nested chain of possibly negated leaves is accepted, and the tree it becomes is known: AND and OR bind equally and to the left |
| FilterSyntax.RoundTripIff | src/core/filter_engine.c:91-357 | parsing inverts printing if and only if no integer has a dot anywhere after it |
| FilterMeaning.PrintingKeepsMeaning | src/core/filter_engine.c:360-497 | a printed filter, read back, decides every event as before unless an integer tested for equality has a dot after it |
| FilterMeaning.RealForIntIff | src/core/filter_engine.c:360-443 | reading an integer as a real keeps a comparison's meaning on all events if and only if it is not a test for equality |
| FilterMeaning.IntegerBeforeDotNeverMatches | src/core/filter_engine.c:234-249 | a filter that asks for an integer anywhere in a conjunction and has a dot further on, read back, accepts no event whose field is an integer |
| FilterMeaning.EveryAcceptedEventIsLost | src/core/filter_engine.c:234-249 | read back, such a filter rejects every event it accepts |
| BpfPushdown.PushdownPreservesMeaning | src/core/filter_engine.c:593-669 | capturing with the extracted conjunction and then filtering gives the same events as filtering everything, for every filter and every stream that mirrors its packets |
| BpfPushdown.TextPushdownPreservesMeaning | src/core/filter_engine.c:672-687 | the same for the text that is handed over and any capture engine that reads a conjunction of predicates as one, when the text fits its buffers |
| BpfPushdown.FilterImpliesCapture | src/core/filter_engine.c:637-669 | a packet whose event passes the filter passes every predicate reachable through ANDs |
| BpfPushdown.BpfBuffer.Extract | src/core/filter_engine.c:637-669 | the recursion appends exactly the reachable predicates, left to right, to the buffer in place |
| BpfPushdown.FilterToBpf | src/core/filter_engine.c:672-687 | the text is the clipped join of the reachable predicates, and absent when there are none |
| BpfPushdown.BufferedAppend | src/core/filter_engine.c:652-664 | writing a separator and a predicate into the room that is left is clipping the longer join |
| BpfPushdown.TextIsTheJoinIff | src/core/filter_engine.c:672-687 | the text is the whole " and "-join if and only if it fits in 1023 characters and each predicate in 511 |
| NqlScanner.ScanStopsAtTheFirst | src/parsers/nql_parser.c:153-236 | the scanner stops exactly at the first pipe or stop word outside quotes and parentheses, judged by a separate one-character-at-a-time lexer |
| NqlPrinting.FilterPasses | src/parsers/nql_parser.c:153-236 | the scanner passes over any printed filter with no leaf named like a stop word, quoted strings included |
| NqlParser.Parser.FindStop | src/parsers/nql_parser.c:157-236 | the loop with its quote flags and depth computes where the scan stops |
| NqlParser.Parser.ParseFilterText | src/parsers/nql_parser.c:153-266 | the text up to the stop, trimmed, goes to the filter parser; the cursor ends at the stop |
| NqlParser.Parser.ParseDuration | src/parsers/nql_parser.c:119-151 | number, blanks and unit, with strtoull's saturation and the product modulo 2^64, or the first error |
| NqlParser.Parser.ParseFunction | src/parsers/nql_parser.c:318-417 | one aggregation function: value and place, or the first error |
| NqlParser.Parser.ParseCorrelate | src/parsers/nql_parser.c:427-482 | the correlate clause, with 100 ms when no or a zero duration is given |
| NqlParser.Parser.ParseAggregate | src/parsers/nql_parser.c:484-629 | function list, by, where and window in order |
| NqlParser.Parser.ParseShow | src/parsers/nql_parser.c:631-690 | star or field list, and the where clause |
| NqlParser.Parser.ParseSingle | src/parsers/nql_parser.c:761-790 | each alternative is tried at the same place, the bare filter last |
| NqlParser.Parser.ParseStages | src/parsers/nql_parser.c:792-847 | the pipeline loop grows its array stage by stage and ends |
| NqlParser.Parse | src/parsers/nql_parser.c:944-976 | for every input the parser ends with exactly one of a query and an error, the ones the grammar determines |
| NqlRoundTrip.FilterReads | src/parsers/nql_parser.c:153-266 | a printed filter is cut out of a query whole and read back, and the cursor is left at what stopped the scan |
| NqlRoundTrip.SingleReads | src/parsers/nql_parser.c:761-790 | every printable stage reads back, up to the pipe or the end |
| NqlRoundTrip.DurationMeansIff | src/parsers/nql_parser.c:119-151 | a number with any of the four units reads as that many milliseconds if and only if the product fits in 64 bits |
| NqlRoundTrip.BareWindowIsTumbling | src/parsers/nql_parser.c:617-625 | a window given by a bare duration is a tumbling one |
| NqlRoundTrip.WrappedListReads | src/parsers/nql_parser.c:505-530 | a function list in parentheses reads as the list without them |
| NqlRoundTrip.StarIsShow | src/parsers/nql_parser.c:692-725 | a star, with or without a where clause, is a show query of every field |
| NqlRoundTrip.QueryRoundTrip | src/parsers/nql_parser.c:792-976 | for every printable query tree, pipelines included, parsing its text returns that tree and uses up all of it |
| DnsNames.Reader.ExtractName | src/parsers/dns_parser.c:40-85 | whenever the walk stays in the packet and ends, wherever its pointers lead, the loop ends, never writes outside its buffer, and leaves name and cursor where the walk does |
| DnsNames.LoopsForeverIff | src/parsers/dns_parser.c:40-85 | the loop takes every number of turns if and only if the walk comes to the same pointer twice with no label copied in between |
| DnsNames.SelfPointerLoops | src/parsers/dns_parser.c:55-65 | a packet on which it does: a pointer to itself |
| DnsNames.NameIsUnique | src/parsers/dns_parser.c:40-85 | the reference, section 4.1.4 of RFC 1035: a message holds at most one name at a place |
| DnsNames.DecodesExactlyIff | src/parsers/dns_parser.c:40-85 | a well-formed name comes out as its dotted labels, with the cursor past the first pointer or the zero octet, if and only if it has at most 254 characters; a longer one is cut after the last label that fits |
| DnsNames.WritesWhatFits | src/parsers/dns_parser.c:67-79 | of any well-formed name the decoder writes as many whole labels as fit in 254 characters |
| DnsNames.CursorIsExactIff | src/parsers/dns_parser.c:40-85 | the cursor is left where the name ends if and only if the name fits, or has a pointer and the labels in front of it fit; otherwise it is left inside the name |
| DnsNames.FullNameKeepsPlaceIff | src/parsers/dns_parser.c:40-85 | after a name written out in full the cursor is right if and only if the name fits |
| DnsNames.LongNameDerails | src/parsers/dns_parser.c:67-70 | a packet on which it is not: a name of 255 characters |
| DnsNames.WireLimitIsEnough | src/parsers/dns_parser.c:67-70 | no name within the 255 octets of section 2.3.4 of RFC 1035 is cut |
| DnsNames.DecodingInvertsEncoding | src/parsers/dns_parser.c:40-85 | what an encoder writes, with or without a pointer to an earlier place, decodes to the labels it encoded, with the cursor behind the encoding |
| DnsQuestions.ParseQuestions | src/parsers/dns_parser.c:87-122 | the loop over the question section, and its failure when a name is empty |
| DnsQuestions.QuestionsDecode | src/parsers/dns_parser.c:87-122 | for names of at most 254 characters, whatever octets: all questions are reported if none asks about the root, and otherwise none is |
| DnsQuestions.SectionKeepsPlaceIff | src/parsers/dns_parser.c:87-122 | the decoder reads every question of a section in its place if and only if every name fits, or has a pointer and fits up to there |
| DnsQuestions.SectionInPlaceDecodes | src/parsers/dns_parser.c:87-122 | then all questions are reported, with type and class and with their names as far as they fit, or none because one asks about the root |
| DnsQuestions.SectionDecodesIff | src/parsers/dns_parser.c:87-122 | for names with any octets: a section is reported whole, each question read in its place, if and only if none asks about the root, every name keeps its place, and every name that does not fit holds a zero octet in the part that does |
| DnsQuestions.RootQuestionDiscards | src/parsers/dns_parser.c:95-99 | a question about the root ends the section with nothing reported |

## Left out

- AggregateExecutor.Executor.Execute: the result event ends in a list; handing it to `nblex_event_emit`, and so to the correlation engine and the event handler, is not modelled.
- AggregateExecutor.Executor.Flush: the same, for the results of a flush.
- NqlCorrelate.Correlator.Execute: the same, for correlation results; they are the pair of events, without further fields.
- FilterMeaning.PrintingKeepsMeaning: only one direction, since a filter can keep its meaning by accident (one that accepts nothing either way); the exact condition is that of a leaf (`RealForIntIff`), and `EveryAcceptedEventIsLost` gives the filters whose meaning is turned round.
- BpfPushdown.TextPushdownPreservesMeaning: a text that does not fit has no meaning here, since the grammar of the capture filter is not modelled; `TextIsTheJoinIff` says exactly when it fits.
- DnsNames.Reader.ExtractName: the decoder does not check the packet's end; what it does once it reads past it is not modelled.
- DnsQuestions.ParseQuestions: the same, and a section in which the walk over a name never ends.
- Aggregation.Updated: an undated event is dated by one reading of the clock; for sessions the program reads the clock once for the choice of the bucket and again for its last time.
- Contents of sliding buckets over a run, for the events dated before the window size; from there on there are none (`SlidingNeverReports`).
- NqlRoundTrip.QueryRoundTrip: real literals and bare patterns in filters, and percentiles that are not whole numbers, are parsed but not printed.
- Event loop, timers, packet capture, file tailing, YAML, command line, metrics and file output: a timer is a step with a clock value.
- PCRE2 and printf's `%.6f` and `%.0f` are parameters (`RegexEngine`, `Library`).
- IEEE rounding, infinities and NaN in arithmetic: values are reals. Hexadecimal numerals and the words for infinity and NaN in `strtod`.
- Memory: allocation failure, reference counts, freeing. Contents are values.
- Integer wrap-around, except where it matters here: subtraction of clocks and cutoffs, the 32-bit copy of the duration, `int` values in filters, durations in milliseconds. Counters, window ends and the product of `within` and 1000000 are unbounded.
- The world's lifecycle: `World` merges the world and its correlation engine, always opened, with a fixed window.
- One executor state per query string: the list of contexts, and two stateful stages in one pipeline.
- Zero tumbling and sliding sizes and negative percentiles: the C code divides by zero or converts out of range, so the executor's theorems exclude them. The parser accepts them.
- Texts contain no NUL character, and characters outside ASCII are neither blanks, letters nor digits.
- The grammar of the capture filter: predicates have their meaning, their text is only joined.
- DNS header flags and resource records: the record header is skipped by a padded structure size, so their layout is not that of section 4.1.3 of RFC 1035. JSON rejects names that are not UTF-8.
- The syslog, nginx, HTTP and logfmt parsers.
