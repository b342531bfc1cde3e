# kafka-to-nexus: a verified model

kafka-to-nexus takes messages from Kafka, filters them by a time window, hands them to writer modules
and appends them to growable HDF5 datasets; a start/stop command protocol drives it. This project models
the parts whose correctness spans many calls and proves what they do over whole runs.

| file | what it models |
|---|---|
| `MachineInts.dfy`, `Sequences.dfy`, `Shapes.dfy` | C++ integer conversions; selecting from lists; shapes, positions and row-major order |
| `MultiVector.dfy`, `JsonArray.dfy` | in-memory arrays, conversion of ragged JSON arrays |
| `ExtensibleDataset.dfy` | growing one- and multi-dimensional datasets |
| `SourceFilter.dfy`, `SourceFilterRuns.dfy` | the time-window filter and its behaviour over histories |
| `FilterSharing.dfy`, `Partition.dfy` | sharing filters between destinations; a partition and its polls |
| `PartitionRuns.dfy` | when a partition has finished and what its counters say, over every run |
| `PartitionFilter.dfy`, `PartitionThreaded.dfy` | stop conditions of polling; the worker thread and its requests |
| `MessageWriter.dfy` | the writer thread: queue, counters, flush times |
| `EventWriters.dfy`, `LogWriters.dfy` | ev44, tdct, f144, ad00 and da00 files with their index tables |
| `CommandProtocol.dfy`, `CommandAlternation.dfy`, `CommandTopics.dfy` | the job protocol; starts and finishes, and the topics they are published on, over every run, whatever fails |
| `CommandTimes.dfy` | stop times, and what makes a turn finish a job or end the program |
| `RunState.dfy` | signals and the end of the main loop |
| `JobCreator.dfy` | sorting the configured modules, adding extra modules |

Objects that change become classes whose methods are tied to a function of the old state; the lemmas then
speak about every run of that function. Two threads against each other are state machines over single
atomic accesses, and a run is any interleaving of them. Times are 64-bit nanoseconds as integers, hashes
are numbers, payloads are opaque. Clock readings, poll results, decoded messages and the outcome of every
call that can throw are inputs.

Where a property does not hold of the code on all inputs, the code is kept as it is and the exact condition
is proved:

- Index arithmetic goes through an `int`: right exactly for shapes whose usable strides fit it and that
  have at most 2^64 positions (`IndexCorrectIffAddressable`). For a buffer of at most 2^63 elements, an
  accepted index stays inside it exactly when no usable stride turns negative in the `int` and the last
  index is inside (`InsideBufferIff`), and different positions then have different cells exactly when the
  strides fit (`DistinctIffAddressable`).
- A JSON conversion whose leaves all have their cells inside the buffer throws exactly when a leaf exists
  and some dimension is zero, and holds every leaf where it belongs if the size is below 2^64 and the
  usable strides fit (`JsonArrayToMultiArray`). Few leaves in ragged arrays are enough for other
  dimensions: four levels of 65536 wrap the size to zero (`WrappedSizeLeavesBuffer`).
- Appending through a stale element count overwrites: faithful exactly when the count is the size
  (`AppendFaithfulIffCounted`).
- Sharing a filter is invisible exactly when equal write hashes mean equal settings
  (`SharingInvisibleIffConsistent`).
- A requested stop time is lost exactly when it is stored between the worker's load and reset
  (`TimeRequestKeptIff`, with a run that loses one in `TimeRequestLost`); `stop()` is never lost.
- All flush times stay on the grid of the first one (`FlushesStayOnGrid`); the next one is always the first
  point after now exactly when no number of elapsed periods fails to fit an `int` (`FlushTimesRightIff`).
- ev44 cues carry the right time exactly when messages with a cue end in the pulse of their last event and
  that event's time fits 64 bits (`CuesRightIff`); ids stay aligned exactly when every message has as many
  ids as events (`InStepIffIdsMatch`).
- f144 times line up with values exactly when no array message came in (`F144TimesAlignedIff`).
- da00 variables stay as long as the time array exactly when every message either has no entry that is
  refused and names no variable twice, or has its first known entry refused (`Da00InStepIff`). An entry is
  refused if its type is unknown, its rank differs from the configured one or it is larger on some axis,
  because the datasets are created with the configured shape as their maximum. A refused entry after a
  stored one leaves a row without a time (`TooWideLosesStep`, `WrongRankLosesStep`).
- Successful starts and finished messages alternate in every run, whichever connections fail, exactly as
  long as no job is created whose status topic cannot be (`EveryRunAccountedIff`,
  `AlternationSurvivesIff`); such a job finishes under nobody's id (`OrphanFinishesForNobody`) and lets a
  SIGINT throw out of the main loop's test (`TestCanThrowIff`).
- Starts are answered on the control topics that they name in every run, whichever other connections fail,
  exactly as long as no job fails to start after its topic was switched to and the way back fails too
  (`EveryRunHomeIff`, `ControlTopicsSurviveIff`); after that a job that names the command topic is answered
  on the old control topic (`StrandedJobAnsweredElsewhere`).
- The topics of the command protocol keep their invariant exactly when in addition no control-topic switch
  and no way back after a failed job creation fails (`TurnKeepsInvariantIff`). After a failed switch
  `revertCommandTopic` does nothing, because the flag it tests is set last, so the idle service listens on
  the control topic (`FailedSwitchLeavesControlTopic`).

## Model

| member | source | states |
|---|---|---|
| Shapes.HornerIsRowMajor | src/MultiVector.h:24-34 | the sum of strides is the Horner form of row-major order, from any accumulator |
| Shapes.FlattenUnflatten | src/MultiVector.h:24-34 | every index below the size is the index of the position it stands for |
| Shapes.UnflattenFlatten | src/MultiVector.h:24-34 | every position in range is recovered from its index |
| Shapes.RowMajorInjective | src/MultiVector.h:24-34 | positions in range with equal indexes are equal |
| MultiVectors.PosToIndex | src/MultiVector.h:24-34 | the loops over reversed copies compute the machine index, every conversion to `int` and `size_t` included |
| MultiVectors.IntProductIsSize | src/MultiVector.h:29-30 | the truncated running product is the true product truncated once |
| MultiVectors.MachineIndexIsRowMajor | src/MultiVector.h:24-34 | on an addressable shape the machine index is the row-major index |
| MultiVectors.MisplacedPosition | src/MultiVector.h:29-31 | a shape that is not addressable has a position in range with a wrong index |
| MultiVectors.IndexCorrectIffAddressable | src/MultiVector.h:24-34 | for every shape without empty axes the index is right at every position exactly when every usable stride fits the `int` accumulator and there are at most 2^64 positions |
| MultiVectors.IndexBijection | src/MultiVector.h:24-34 | on an addressable shape the index is a bijection from positions onto [0, size), equal to Horner order |
| MultiVectors.MachineIndexIsSum | src/MultiVector.h:24-34 | for every shape and position the index is the sum of the truncated strides modulo 2^64 |
| MultiVectors.InsideBufferIff | src/MultiVector.h:19-56 | among all shapes whose buffer can be allocated, every accepted index is inside the buffer exactly when no usable stride is negative in the `int` and the last index is inside |
| MultiVectors.InsideBufferIffStrides | src/MultiVector.h:19-56 | for sizes up to 2^63 the strides alone decide |
| MultiVectors.DistinctIffAddressable | src/MultiVector.h:48-56 | where indexes stay inside a buffer of at most 2^63 elements, wrapped sizes included, different positions have different cells exactly when the usable strides fit the `int` |
| MultiVectors.WrappedSizeLeavesBuffer | src/MultiVector.h:19-22 | a concrete shape whose size wraps to zero, so that an accepted position has no cell |
| MultiVectors.ExtentToSize | src/MultiVector.h:19-22 | the size is the product modulo 2^64, and an empty shape is rejected |
| MultiVectors.MultiVector.CheckIndex | src/MultiVector.h:63-72 | accepts exactly the positions of the right rank and in range |
| MultiVectors.MultiVector.SetValue | src/MultiVector.h:48-51 | exactly the cell of the machine index is set; on a sound shape the position then reads the value and every other position what it read before; a bad index changes nothing |
| MultiVectors.MultiVector.GetValue | src/MultiVector.h:53-56 | reads the cell of the machine index, which on a sound shape is the element in row-major order; reports a bad index |
| JsonArrays.LengthAtBounds | src/HDFOperations.cpp:22-35 | no array at a depth is longer than the measured length, and every path stays below it |
| JsonArrays.LengthAtAttained | src/HDFOperations.cpp:22-35 | some array at every depth has the measured length |
| JsonArrays.FindInnerSize | src/HDFOperations.cpp:22-35 | merges a tree into the dimensions: each becomes the maximum of what it was and the largest array length at its depth |
| JsonArrays.DetermineArrayDimensions | src/HDFOperations.cpp:45-52 | one dimension per array level, each the largest array length there; `[1]` for a scalar |
| JsonArrays.PopulateMultiVector | src/HDFOperations.h:81-94 | fails exactly when a leaf exists and a dimension is zero; on a sound shape fills exactly the cells below its position that a leaf pads to |
| JsonArrays.PopulateElement | src/HDFOperations.h:85-93 | the same for one element, array or leaf |
| JsonArrays.LeavesDoNotCollide | src/HDFOperations.h:81-94 | leaves whose paths pad to the same position are the same leaf |
| JsonArrays.LeafInBounds | src/HDFOperations.h:81-102 | a padded leaf path is in range exactly when no dimension is zero |
| JsonArrays.SoundLeavesInside | src/HDFOperations.h:96-102 | on sound dimensions every leaf has its cell inside the buffer, as the conversion needs |
| JsonArrays.JsonArrayToMultiArray | src/HDFOperations.h:96-102 | fails exactly when a leaf exists and a dimension is zero; on sound dimensions every leaf is found at its path padded with zeros and every other cell is the default |
| ExtensibleDatasets.AppendFaithfulIffCounted | src/NeXusDataset/ExtensibleDataset.h:194-229 | appends put every payload after the old contents exactly when the cached count is the dataset's size |
| ExtensibleDatasets.AppendPlaces | src/NeXusDataset/ExtensibleDataset.h:194-229 | where every element is after an append at any cached count, stale ones included |
| ExtensibleDatasets.ExtensibleDataset.AppendArray | src/NeXusDataset/ExtensibleDataset.h:194-200 | grows by the payload and writes it at the cached count; a true append if the count is in step |
| ExtensibleDatasets.ExtensibleDataset.AppendElement | src/NeXusDataset/ExtensibleDataset.h:203-208 | the same for one element |
| ExtensibleDatasets.ExtensibleDataset.AppendArrayAdapter | src/NeXusDataset/ExtensibleDataset.h:210-229 | sets the extent from the cached count, which cuts the dataset if the count is stale; a true append if it is in step |
| ExtensibleDatasets.MultiDimDataset.AppendArray | src/NeXusDataset/ExtensibleDataset.h:412-441 | adds one row, widens each axis to the larger size, shows the payload row-major inside its shape and 0 outside, keeps every old cell; a wrong rank changes nothing |
| ExtensibleDatasets.MultiDimDataset.WriteHyperslab | src/NeXusDataset/ExtensibleDataset.h:439-440 | elements in memory order land at the row-major positions of the new row and nowhere else |
| ExtensibleDatasets.OutsideIsZero | src/NeXusDataset/ExtensibleDataset.h:426-437 | a cell that only later growth brings into range lies outside its own frame and reads 0 |
| ExtensibleDatasets.RunShowsFrames | src/NeXusDataset/ExtensibleDataset.h:412-441 | over any run of appends axis 0 grows by the accepted ones, every other axis is the maximum seen, and each frame reads back undisturbed by later growth |
| SourceFilters.TimepointIsWholeMicrosecond | src/Stream/SourceFilter.cpp:44-47 | a timestamp becomes the whole microsecond next to it on the side of zero |
| SourceFilters.SourceFilter.ForwardMessage | src/Stream/SourceFilter.cpp:97-103 | queues the message once for every destination, in order |
| SourceFilters.SourceFilter.ForwardBufferedMessage | src/Stream/SourceFilter.cpp:37-42 | sends the held message flagged as buffered and holds none afterwards; also the destructor |
| SourceFilters.SourceFilter.FilterMessage | src/Stream/SourceFilter.cpp:49-95 | the new state, counters and queue are those of one filter step, and the result says whether the message itself was sent |
| SourceFilters.SourceFilter.AcceptMessage | src/Stream/SourceFilter.cpp:77-94 | the window test: hold, discard, finish, or flush and send |
| SourceFilterRuns.RefinesHistory | src/Stream/SourceFilter.cpp:29-103 | for every arrival order and any stop-time changes, state and output are what a plain log of the history determines |
| SourceFilterRuns.HeldIsLatest | src/Stream/SourceFilter.cpp:78-86 | the held message is a latest one among the pre-start messages since the last flush, and one is held exactly when there are any |
| SourceFilterRuns.FlushAllowed | src/Stream/SourceFilter.cpp:29-42 | whatever the flush or the destructor sends is pre-start and latest among those pending |
| SourceFilterRuns.EveryForwardAllowed | src/Stream/SourceFilter.cpp:31-103 | every unbuffered forward is the arriving message inside [start, stop in force]; every buffered one is a latest pending pre-start message |
| SourceFilterRuns.NothingAfterFinish | src/Stream/SourceFilter.cpp:56-59 | after the finishing step nothing is forwarded by any later events or by the destructor |
| SourceFilterRuns.CountersConserved | src/Stream/SourceFilter.cpp:37-103 | received = transmitted + discarded + overwritten while held + one if held + one if finished; received counts own arrivals, transmitted counts forwards |
| SourceFilterRuns.OrderedRunForwardsWindow | src/Stream/SourceFilter.cpp:29-103 | in time order with a fixed stop time, all forwards are the last pre-start message, flagged, then the window's messages in order, without consecutive repeats unless allowed |
| SourceFilterRuns.WindowOfRawTimestamps | src/Stream/SourceFilter.cpp:77-94 | a raw timestamp is before the start iff it is before the start's first whole microsecond (the start itself if that is one), and after the stop iff it has reached the first whole microsecond after the stop |
| SourceFilterRuns.OrderedRunForwardsRawWindow | src/Stream/SourceFilter.cpp:29-103 | the window theorem on raw timestamps |
| SourceFilterRuns.EveryForwardInRawWindow | src/Stream/SourceFilter.cpp:31-103 | in every run unbuffered forwards are stamped inside the window in force, buffered ones before the start |
| SourceFilterRuns.CountersOfKinds | src/Stream/SourceFilter.cpp:56-75 | the remaining counters are the invalid, repeated and late messages of the source before it was closed |
| FilterSharing.TracksRun | src/Stream/Partition.cpp:269-283 | through any history a destination is fed by one filter in the state of a filter of its own, until that has finished and been erased |
| FilterSharing.DestinationSeesGroupFilter | src/Stream/Partition.cpp:15-48 | each destination gets exactly what one filter with its group's settings sends |
| FilterSharing.FirstOfGroup | src/Stream/Partition.cpp:27-38 | a group's repeat flag is that of its first source |
| FilterSharing.LastOfGroup | src/Stream/Partition.cpp:39-46 | a group's source hash is that of its last source |
| FilterSharing.GroupInOrder | src/Stream/Partition.cpp:39-40 | a group's destinations are those of its sources, in order |
| FilterSharing.SettingsMatter | src/Stream/SourceFilter.cpp:51-74 | filters that differ in source hash or repeat flag are told apart by some history |
| FilterSharing.SharingInvisibleIffConsistent | src/Stream/Partition.cpp:15-48 | every destination gets what a private filter would send, for every history, exactly when equal write hashes mean equal source hash and repeat flag |
| Partitions.GroupSources | src/Stream/Partition.cpp:24-40 | each group has the repeat flag of its first source, the source hash of its last and the destinations of all, in order |
| Partitions.ListFilters | src/Stream/Partition.cpp:41-47 | lists every group once by ascending write hash, with its source hash set |
| Partitions.CreateFilters | src/Stream/Partition.cpp:15-48 | the filters are exactly the groups of the sources, by ascending write hash |
| Partitions.Partition.SetStopTime | src/Stream/Partition.cpp:131-137 | the guarded stop time reaches the poll logic and every filter, and nothing else changes |
| Partitions.Partition.ProcessMessage | src/Stream/Partition.cpp:239-284 | counts offset gaps and unreadable messages by kind, delivers a readable one |
| Partitions.Partition.Deliver | src/Stream/Partition.cpp:269-283 | every filter takes the message, the processed count goes up if one sends it, and exactly the unfinished filters stay |
| Partitions.Partition.FilterAll | src/Stream/Partition.cpp:269-274 | every filter takes the message, what they send is queued in their order, and the result tells whether one sends the message itself |
| Partitions.Partition.EraseFinished | src/Stream/Partition.cpp:280-283 | exactly the filters that have not finished stay, in order |
| Partitions.Partition.PollForMessage | src/Stream/Partition.cpp:188-237 | one poll: force-stop and pause come first, then the count of its status and the poll logic, then processing; finished when no filter is left or the broker time is past stop plus leeway |
| Partitions.RunIsHistory | src/Stream/Partition.cpp:131-137 | filters and queue after any turns are those of the history of messages and stop times taken in |
| Partitions.DestinationGetsItsOwnStream | src/Stream/Partition.cpp:188-284 | in any run of a partition each destination gets, up to destruction, what its private filter sends for the messages taken in |
| PartitionRuns.PollingFollows | src/Stream/Partition.cpp:131-237 | stop flag, stop time and polling state after any turns are those of the polls made and the times requested |
| PartitionRuns.HistoryIsTaken | src/Stream/Partition.cpp:188-284 | the filters go through exactly the readable messages taken and the stop times requested |
| PartitionRuns.RequestedStopReachesAll | src/Stream/Partition.cpp:131-137 | a requested stop time with room for the leeway reaches partition, polling and all filters unchanged |
| PartitionRuns.DestinationGetsWhatWasTaken | src/Stream/Partition.cpp:188-284 | each destination gets what its private filter sends for the messages taken and the stop times requested |
| PartitionRuns.NoFiltersLeftIff | src/Stream/Partition.cpp:280-283 | no filter is left exactly when a message beyond the stop time in force was taken for every source |
| PartitionRuns.FinishedExactlyWhen | src/Stream/Partition.cpp:188-237 | over any run a partition has finished exactly when a poll came after stop(), or met the stop condition of polling, or brought a message after which every source was closed or which the broker took in after requested stop time and leeway |
| PartitionRuns.CountersOfRun | src/Stream/Partition.cpp:196-268 | over any run the counters are the polls of each status, the unreadable messages of each kind and the gaps in the offsets |
| PartitionRuns.ProcessedInWindow | src/Stream/Partition.cpp:269-278 | over any run the processed messages are those that came into the window of some source |
| PartitionFilters.GuardedStopTime | src/Stream/Partition.cpp:123-129 | a stop time is kept if stop plus leeway is below the largest time, and otherwise moved back by exactly the leeway |
| PartitionFilters.PartitionFilter.UpdateStatusOccurrenceTime | src/Stream/PartitionFilter.cpp:37-43 | a new state is stamped with the clock, a repeated one keeps its stamp |
| PartitionFilters.PartitionFilter.HasTopicTimedOut | src/Stream/PartitionFilter.cpp:29-35 | the report, with the wrap-around of the sum behind it |
| PartitionFilters.PartitionFilter.ShouldStopPartition | src/Stream/PartitionFilter.cpp:45-67 | new state and verdict of one poll |
| PartitionFilters.StopPlusLeewayInRange | src/Stream/Partition.cpp:123-137 | stop plus leeway never overflows under any sequence of stop times in [0, max]; the stop time in force is the requested one, moved back by the leeway only where the sum would leave the range |
| PartitionFilters.StateFromPolls | src/Stream/PartitionFilter.cpp:37-67 | the state is that of the latest poll, stamped with the beginning of its unbroken run, and the end-of-partition flag is that of the latest message-or-end poll |
| PartitionFilters.StopsExactlyWhen | src/Stream/PartitionFilter.cpp:45-67 | over any history polling stops exactly when the run of errors began more than the limit ago, or a poll timed out at the end of the partition after the requested stop time plus leeway (the stop time alone where the sum has no room) |
| PartitionFilters.TopicTimedOutExactlyWhen | src/Stream/PartitionFilter.cpp:29-35 | the time-out report is right over any history, from the first poll on |
| PartitionFilters.FirstSumOverflows | src/Stream/PartitionFilter.cpp:29-31 | before any state is stamped the sum behind the report wraps to a negative time |
| PartitionThreads.StepKeepsInvariant | src/Stream/Partition.h:176-198 | every step of any thread keeps the invariant; finished and left are final |
| PartitionThreads.EveryInterleaving | src/Stream/Partition.h:185-198 | once stop() is called the flag or the force-stop bit stays set, at most one consumer poll begins, finished never reverts |
| PartitionThreads.StopLeadsToLeaving | src/Stream/Partition.h:185-198 | after stop() the worker leaves within fourteen of its own steps under every interleaving |
| PartitionThreads.ExitLeadsToLeaving | src/Stream/Partition.h:185-198 | once exit is requested or the partition has finished the worker leaves within nine of its own steps under every interleaving |
| PartitionThreads.WaysToLeave | src/Stream/Partition.h:185-198 | an exit request and a poll that ends the partition have that effect, and nothing but these and stop() makes the worker leave |
| PartitionThreads.TimeRequestLost | src/Stream/Partition.h:191-194 | a concrete run from the start in which a requested stop time is neither pending nor handed on |
| PartitionThreads.TimeRequestKeptIff | src/Stream/Partition.h:178-195 | a requested stop time survives every interleaving exactly when it was not stored between the worker's second load and its reset |
| MessageWriters.NextFlushIff | src/Stream/MessageWriter.cpp:96-104 | the next flush time is the first grid point after now exactly when the elapsed periods fit the `int` |
| MessageWriters.FlushesStayOnGrid | src/Stream/MessageWriter.cpp:96-104 | over any clock readings the next flush time stays on the grid of the first |
| MessageWriters.FlushTimesRightIff | src/Stream/MessageWriter.cpp:96-104 | under a clock that does not go back the next flush is always the first grid point after now exactly when no flush comes too late for the `int` |
| MessageWriters.MessageWriter.WriteMsgImpl | src/Stream/MessageWriter.cpp:61-89 | counts a write, an error of a source, or an unknown error |
| MessageWriters.MessageWriter.FlushOperation | src/Stream/MessageWriter.cpp:96-104 | flushes only when due, and then moves to the first grid point after now |
| MessageWriters.EveryJobRunOnce | src/Stream/MessageWriter.cpp:91-125 | under every interleaving no job is lost or run twice, and all jobs queued before stop() are run before the thread exits |
| MessageWriters.FlushOperationInTime | src/Stream/MessageWriter.cpp:105-125 | under every interleaving at most 201 jobs are run between two calls of the flush operation |
| MessageWriters.StopLeadsToExit | src/Stream/MessageWriter.cpp:106-125 | after stop() the thread exits under every interleaving within three of its steps for each job queued then or later and six more |
| MessageWriters.StopServesAll | src/Stream/MessageWriter.cpp:91-125 | after stop() in any state that keeps the account, enough steps of the thread lead to its exit with everything queued before stop() run |
| MessageWriters.CountersAgree | src/Stream/MessageWriter.cpp:61-89 | in every run from the start writes done plus errors is the number of message jobs run, each source's counter is its number of writer exceptions, and the counters add up to all of them |
| EventWriters.CutAppend | src/WriterModule/ev44/ev44_Writer.cpp:116-124 | appending data with its index shifted to where the data starts appends exactly its slices |
| EventWriters.Ev44Writer.WriteImpl | src/WriterModule/ev44/ev44_Writer.cpp:92-138 | the file after one message; buffered messages are ignored |
| EventWriters.Ev44Writer.WritePulses | src/WriterModule/ev44/ev44_Writer.cpp:110-136 | time zeros, shifted index and, past the interval, a cue |
| EventWriters.Ev44Writer.ShiftIndex | src/WriterModule/ev44/ev44_Writer.cpp:118-123 | every index of the message moved by the events already stored |
| EventWriters.OffsetsRoundTrip | src/WriterModule/ev44/ev44_Writer.cpp:92-138 | cutting the stored offsets at event_index gives back the pulses of every non-empty, non-buffered message, and event_time_zero their reference times |
| EventWriters.IdsRoundTrip | src/WriterModule/ev44/ev44_Writer.cpp:106-124 | likewise the stored ids, when every event has one |
| EventWriters.InStepIffIdsMatch | src/WriterModule/ev44/ev44_Writer.cpp:99-109 | ids and events stay equally long throughout exactly when every message brings as many ids as events |
| EventWriters.CuesSpaced | src/WriterModule/ev44/ev44_Writer.cpp:126-134 | cues are at least the interval apart and fewer than the interval of events are without one |
| EventWriters.CuesRightIff | src/WriterModule/ev44/ev44_Writer.cpp:126-134 | all cues carry the absolute time of the event they point to exactly when every message that got one ends in the pulse of its last event and that time fits 64 bits |
| EventWriters.NonEmptyLastPulse | src/WriterModule/ev44/ev44_Writer.cpp:128-131 | a message whose last pulse is not empty ends in the pulse of its last event |
| EventWriters.EmptyLastPulseMisdates | src/WriterModule/ev44/ev44_Writer.cpp:128-131 | a concrete message with an empty last pulse whose stored cue is 205 for an event at 105 |
| EventWriters.TdctWriter.WriteImpl | src/WriterModule/tdct/tdct_Writer.cpp:67-83 | the file after one message; empty ones are refused |
| EventWriters.StampsRoundTrip | src/WriterModule/tdct/tdct_Writer.cpp:67-83 | cutting time at cue_index gives back the non-empty messages, and each cue time is the first stamp of its message |
| LogWriters.CuesOneMore | src/WriterModule/ad00/ad00_Writer.cpp:197-202 | a cue table with cue k at (k+1)*interval-1 stays one when an entry is added with a cue exactly as an interval completes |
| LogWriters.F144Writer.WriteImpl | src/WriterModule/f144/f144_Writer.cpp:197-278 | the file after one message, with metadata on or off; an array message leaves only its time |
| LogWriters.F144Writer.UpdateStats | src/WriterModule/f144/f144_Writer.cpp:264-275 | running minimum, maximum, sum and count, and the stored minimum, maximum and mean |
| LogWriters.F144CuesValid | src/WriterModule/f144/f144_Writer.cpp:258-263 | in every run the cue table is a valid index of the scalar messages, with their times |
| LogWriters.F144TimesAlignedIff | src/WriterModule/f144/f144_Writer.cpp:199-256 | times line up with values exactly when no array message was received; if none was, the cues are a valid index of the times |
| LogWriters.F144StatsRight | src/WriterModule/f144/f144_Writer.cpp:264-276 | with metadata on the stored minimum, maximum and mean are those of all values written, with metadata off none are stored |
| LogWriters.Ad00Writer.WriteImpl | src/WriterModule/ad00/ad00_Writer.cpp:142-204 | one frame and one time per accepted message, none for a rejected one, and a valid cue table throughout |
| LogWriters.Da00Writer.WriteImpl | src/WriterModule/da00/da00_Writer.cpp:333-387 | every variable gets its own rows or the filler and time grows by one; a refused entry keeps the rows before it and adds no time; the cue table stays valid |
| LogWriters.Da00Writer.AppendKnown | src/WriterModule/da00/da00_Writer.cpp:341-360 | known entries are appended in order and listed, up to the first whose type is unknown, whose rank is wrong or that is larger than the configured shape |
| LogWriters.Da00Writer.Complete | src/WriterModule/da00/da00_Writer.cpp:361-385 | fillers exactly where names are missing, then time and cue |
| LogWriters.Da00Writer.FillMissing | src/WriterModule/da00/da00_Writer.cpp:368-374 | exactly the variables that are not listed get the filler |
| LogWriters.Da00Writer.AppendTime | src/WriterModule/da00/da00_Writer.cpp:379-385 | the time is appended and the cue table stays valid |
| LogWriters.RefusedIff | src/WriterModule/da00/da00_Variable.h:54-83 | an entry of a variable is refused exactly if its type is unknown, its rank differs or some size is beyond the configured one |
| LogWriters.OneRowEachIffDistinct | src/WriterModule/da00/da00_Writer.cpp:341-378 | a message with no refused entry adds exactly one row to every variable exactly when it names no variable twice |
| LogWriters.MessageInStepIff | src/WriterModule/da00/da00_Writer.cpp:341-379 | a message adds as many rows to every variable as times exactly when it is stored whole and names no variable twice, or its first known entry is refused |
| LogWriters.Da00InStepIff | src/WriterModule/da00/da00_Writer.cpp:333-387 | all variables stay as long as time after every message exactly when that holds of every message |
| LogWriters.RowsInOrder | src/WriterModule/da00/da00_Writer.cpp:341-353 | the rows a message brings to a variable are the payloads of the entries with its name, in order |
| LogWriters.RowsBelongToTimes | src/WriterModule/da00/da00_Writer.cpp:333-387 | while in step, row k of every variable and time k are those of the k-th stored message: the payload of its entry, or the filler if it has none |
| LogWriters.TooWideLosesStep | src/WriterModule/da00/da00_Variable.h:18-83 | a concrete message with distinct names and right ranks whose second entry is larger than configured: a row without a time |
| LogWriters.WrongRankLosesStep | src/WriterModule/da00/da00_Variable.h:63-69 | the same for an entry of the wrong rank |
| CommandProtocol.Service.ChangeTopic | src/CommandSystem/CommandListener.cpp:50-67 | the topic is overwritten whether or not the connection succeeds |
| CommandProtocol.Service.SwitchCommandTopic | src/CommandSystem/Handler.cpp:92-104 | source and responses move to the control topic, or the call fails with the source already moved |
| CommandProtocol.Service.RevertCommandTopic | src/CommandSystem/Handler.cpp:83-90 | source and responses return to the default topic if they had left it |
| CommandProtocol.Service.UseAlternativeStatusTopic | src/Status/StatusReporterBase.cpp:85-100 | status moves to the alternative topic unless one is in use or it cannot be created |
| CommandProtocol.Service.StartWriting | src/Master.cpp:41-75 | a created job gets its controller before the status topic and the writing state |
| CommandProtocol.Service.StartWritingProcess | src/CommandSystem/Handler.cpp:190-241 | the checks in order, the attempt, and the way back after a failure |
| CommandProtocol.Service.HandleStartCommand | src/CommandSystem/Handler.cpp:164-188 | echo and answer go to the topic in use afterwards |
| CommandProtocol.Service.StopNow | src/Master.cpp:91-102 | succeeds exactly while writing; the controller is stopped |
| CommandProtocol.Service.SetStopTime | src/Master.cpp:104-115 | refused when not writing or when the stop time has passed |
| CommandProtocol.Service.StopWritingProcess | src/CommandSystem/Handler.cpp:275-329 | the checks in order, then stop now or set the stop time |
| CommandProtocol.Service.HandleStopCommand | src/CommandSystem/Handler.cpp:254-273 | the answer names the job and command of the request |
| CommandProtocol.Service.LoopFunction | src/CommandSystem/Handler.cpp:45-60 | jobs are taken only while idle, commands only while writing, and the pool is left after a start command |
| CommandProtocol.Service.SetToIdle | src/Master.cpp:135-150 | one finished message on the topic in use, then everything back to its defaults |
| CommandProtocol.Service.Run | src/Master.cpp:127-133 | one turn of the main loop |
| CommandProtocol.TurnKeepsInvariantIff | src/CommandSystem/Handler.cpp:45-124 | from a good state a turn leads to a good state, unless it halts, exactly when no unrecovered failure happens; what is published makes sense even when it halts |
| CommandProtocol.EveryRunSound | src/Master.cpp:127-150 | at every loop boundary the service is idle with no controller and all topics on their defaults, its consumer unset or subscribed to the noted topic, or writing the announced job with a controller, the pool disconnected and all traffic on its control topic |
| CommandAlternation.TurnAccountedIff | src/CommandSystem/Handler.cpp:45-124 | from a state that agrees with what was announced, a turn keeps the published messages alternating and in agreement exactly when it orphans no job, whatever else fails or halts |
| CommandAlternation.EveryRunAccountedIff | src/Master.cpp:41-150 | the same at every boundary of every run |
| CommandAlternation.EveryRunAlternates | src/CommandSystem/Handler.cpp:45-124 | in every run that orphans no job successful starts and finished messages strictly alternate, each finish with job id, file path and topic of the start before it |
| CommandAlternation.AlternationSurvivesIff | src/Master.cpp:41-75 | the published messages alternate after a turn and any next one that orphans nothing exactly when the turn itself orphans no job |
| CommandAlternation.OrphanFinishesForNobody | src/Master.cpp:127-150 | a concrete job without status topic whose error publishes a finished message for no announced job |
| CommandAlternation.SoundAlternates | src/CommandSystem/Handler.cpp:106-124 | messages that make sense alternate, every start on the control topic that it names, and the job taken to be running is the one that began last |
| CommandTopics.TurnHomeIff | src/CommandSystem/Handler.cpp:83-104 | from a state at home, whatever fails, every successful start of a turn is answered on the control topic it names, and a turn that does not halt ends at home exactly when it does not strand the responses |
| CommandTopics.EveryRunHomeIff | src/CommandSystem/Handler.cpp:45-124 | the responses are at home at every boundary of a run exactly when no turn left them stranded, and then every successful start was answered on the control topic it names |
| CommandTopics.AlternatesOnControlTopics | src/CommandSystem/Handler.cpp:45-124 | in every run that orphans no job and strands no responses, whatever else fails, starts and finishes alternate, each pair on the control topic that its start names |
| CommandTopics.RecoveredAlternatesOnControlTopics | src/CommandSystem/Handler.cpp:45-124 | runs without unrecovered failures orphan and strand nothing, so all of it holds of them |
| CommandTopics.ControlTopicsSurviveIff | src/CommandSystem/Handler.cpp:223-234 | seen from the published messages alone: starts stay on the topics they name through the next turns exactly when the turn did not leave the responses stranded |
| CommandTopics.StrandedJobAnsweredElsewhere | src/CommandSystem/Handler.cpp:223-234 | a concrete job that names the command topic and is answered on the control topic of a job that failed before it |
| CommandProtocol.StopAffectsNamedJobOnly | src/CommandSystem/Handler.cpp:275-329 | a stop command for another job is refused and changes nothing; one that names the job and asks for now ends it in the same turn with one finished message |
| CommandProtocol.FailedSwitchLeavesControlTopic | src/CommandSystem/CommandListener.cpp:50-67 | a concrete failed switch after which the idle service listens on the control topic |
| CommandProtocol.FilePathParts | src/Master.cpp:78-81 | a file path is the prefix, a slash if it lacks one, and the name without its leading slashes |
| CommandTimes.StopTimeAnswered | src/Master.cpp:104-115 | a stop command with a time for the running job: 201, and controller and noted stop time are the requested one and nothing else changes, if the time noted before has not passed; otherwise 500 and nothing changes |
| CommandTimes.StopNowAnswered | src/Master.cpp:91-102 | a stop command without a time stops the controller with now for its stop time and clears the note |
| CommandTimes.UnreadableStopRefused | src/CommandSystem/Handler.cpp:254-290 | a stop command that cannot be read is answered 400 and changes nothing |
| CommandTimes.StartAnswered | src/CommandSystem/Handler.cpp:45-53 | echo and answer of every start command with its exact code, on the topic in use afterwards; the pool is left in any case |
| CommandTimes.FinishesExactlyWhen | src/StreamController.cpp:67-74 | while a job is written a turn publishes its finished message exactly when an error is reported, it is told to stop at once, or its streams have ended and a stop time that is set has passed |
| CommandTimes.HaltsExactlyWhen | src/CommandSystem/Handler.cpp:45-60 | a turn ends the program exactly when pool or command source cannot be connected, or a job finishes and the way back cannot |
| CommandTimes.EveryRunInTime | src/Master.cpp:104-115 | in every run the job being written has the stop time that was asked for last |
| CommandTimes.RunFinishesInTime | src/Master.cpp:117-133 | in every run, without error and without an order to stop at once, the finished message comes exactly when the streams have ended and the time asked for last has passed |
| RunStates.MainLoop.SignalHandler | src/RunState.h:26-62 | the run state after a signal |
| RunStates.MainLoop.ShouldStop | src/RunState.h:64-98 | the verdict, the new run state, and the stop sent to an unfinished job, which throws if there is a controller without a job |
| RunStates.TestThrowsOnlyForOrphans | src/RunState.h:71-82 | in a run that orphaned no job the test does not throw |
| RunStates.TestCanThrowIff | src/Master.cpp:91-95 | after a turn a SIGINT can make the test throw exactly when the turn orphaned a job and did not finish it at once |
| RunStates.QuietLoopGoesOn | src/RunState.h:64-98 | without a signal the loop goes on |
| RunStates.SigtermEnds | src/RunState.h:42-45 | SIGTERM ends the loop at the next test, in any state |
| RunStates.SecondSigintEnds | src/RunState.h:32-41 | a second SIGINT ends the loop at the next test, with or without a test in between |
| RunStates.SighupWaitsForJob | src/RunState.h:46-57 | after SIGHUP the loop goes on exactly while there is a controller that is not done, and nothing is stopped; it is only heard while running |
| RunStates.SigintGracePeriod | src/RunState.h:64-90 | after a SIGINT that stopped a job, a later test ends the loop exactly when the job has finished or more than five seconds have passed |
| RunStates.IdleSigintEnds | src/RunState.h:71-82 | a SIGINT without an unfinished job ends the loop |
| RunStates.StoppedJobFinishes | src/Master.cpp:127-150 | a turn with a stopped job publishes exactly one finished message, for that job, and ends idle |
| RunStates.SigintFinishesJob | src/RunState.h:64-98 | a SIGINT during an unfinished job stops it, allows one more turn with exactly one finished message for it, and ends the loop at the next test |
| JobCreation.SplitMerges | src/JobCreator.cpp:111-121 | splitting by a property loses, duplicates and reorders nothing |
| JobCreation.ExtractMdatModules | src/JobCreator.cpp:111-121 | the metadata modules are taken out, both parts in their order |
| JobCreation.SplitLinksAndStreams | src/JobCreator.cpp:88-154 | readable settings are kept in order and divided into links and streams |
| JobCreation.ExtractedFields | src/JobCreator.cpp:47-85 | which modules are kept, and which setting each field of the result comes from |
| JobCreation.ExtractedInOrder | src/JobCreator.cpp:88-109 | the settings are those of the modules that are kept, in their order |
| JobCreation.WorklistIsBreadthFirst | src/JobCreator.cpp:156-189 | scanning a list while appending the extras of each item yields generation after generation |
| JobCreation.AddExtraModules | src/JobCreator.cpp:156-189 | terminates on a well-founded catalogue with the streams and all their extras breadth-first, and fails exactly when one of them cannot be started |
| JobCreation.GenerationsExpand | src/JobCreator.cpp:156-189 | the final list is the streams followed, item by item, by one block with exactly the extras that the item enables, in order, each with its own module, an empty configuration and the parent's group, name, topic and source |
| JobCreation.ExpansionUnique | src/JobCreator.cpp:156-189 | no other list has that form |
| JobCreation.ExtrasInherit | src/ModuleSettings.h:32-40 | everything in the list has group, name, topic and source of one of the streams |

## Left out

- librdkafka, h5cpp, flatbuffers, nlohmann::json and asio: only poll results, decoded records, JSON trees and the effect of resizing and writing are kept.
- Uniquely owned objects inside a partition and inside the service are held as values or as fields of their owner; what is not captured is their allocation.
- JSON conversion of elements that do not convert, of objects and of null at top level.
- JsonArrays.JsonArrayToMultiArray: needs the cells of the leaves inside the buffer, because a write outside it has no defined effect in C++; which leaf survives where leaves share a cell is not stated.
- Buffers of more than 2^63 elements, which cannot be allocated.
- Hyperslab writes with a zero-sized axis are taken to write nothing.
- EventWriters.OffsetsRoundTrip: needs fewer than 2^32 events, because event_index is a 32-bit dataset.
- EventWriters.StampsRoundTrip: needs fewer than 2^32 stored time stamps, because the cue position is cast to 32 bits.
- LogWriters.Da00Writer.WriteImpl: does not model the merging of da00 attributes and configuration from the first message, which never changes the shape or type of a configured variable, nor what the shape and axis comparisons read past the end of a shorter list.
- LogWriters.F144Writer.WriteImpl: takes values as reals, so floating-point rounding is not modelled.
- Jobs queued after the writer thread's last drain are not promised to run.
- The se00 module with its generated time stamps, the al00, ep01 and mdat writers, and the dispatch over HDF element types are not modelled.
- Metadata queries with their retry back-off, URI parsing, UUID validity and string hashing: the last two are inputs.
- Logging, metrics registration, command-line parsing.
