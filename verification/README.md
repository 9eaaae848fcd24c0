# GNOME Shell: the logic behind the scenes, modelled and proved

This project models the stateful components of GNOME Shell that are not about
drawing, and proves what they promise. Each component is written in the form
of the original: objects whose methods update fields are classes, loops are
loops, and what a method does is tied to a function on values about which the
theorems are proved. `dafny verify dfyconfig.toml` checks everything.

## The components

**Performance log** (`PerfLogFormat`, `PerfLogModel`, `PerfLogInvariant`,
`PerfLogReplay`, `PerfLogHistory`, `PerfLogClock`, `PerfLogStatistics`,
`PerfLogBlocks`, `PerfLog`). Events are packed, byte by byte, into blocks of
8192 bytes. What a run records is defined from its calls alone: which events
are defined, whether recording is on, what each statistic was last set to. Times are kept as 32-bit
differences, with an escape record for longer ones; statistics are written
only when they have changed. The replay of a run is the recorded history if
and only if no accepted event has an earlier time than the one before it and
nobody logged `perf.setTime` as an ordinary event. A clock that never runs
backwards is not enough for that: a collection of statistics stamps what it
records with the time at which it began, so an event that one of its callbacks
has logged in the meantime is followed by earlier times. For forward clocks
this is the only way to fail. Where times do step back, a replayed event is
late by exactly the sum of the backward steps since the last escape. Leaving
out unchanged statistics loses nothing, unless statistics callbacks leave the
log switched off in the middle of a collection with something due.

**Task batches** (`BatchModel`, `BatchSteps`, `BatchTheorems`, `Batch`). Holds,
concurrent and consecutive batches, nested in any way and run against any
sequence of outside calls. Tasks start in order, every hold emits 'release' at
most once, and precisely when what it stands for is done; every interleaving
of the same runs and releases comes to the same. A cancelled batch keeps the
tasks it had run by then, and releases its hold when they are done.

**Provider database parser** (`ProvidersModel`, `Providers`, `ProvidersProof`,
`ProvidersDocument`, `ProvidersValues`, `ProvidersParser`). The handlers of the
XML parser, as an event machine, against the meaning of a document tree; what
the attributes' texts mean is stated by itself. No sequence of events
whatsoever leads a handler to an object that is not there.

**Screencast source** (`RecorderSource`). Three threads' steps in every
interleaving: the memory account, the coalesced notification, the order of
the stream, each in terms of the steps that were taken.

**Screencast recorder** (`RecorderNames`, `RecorderFiles`, `RecorderTime`,
`Recorder`). The counter behind `%u` is the successor in bijective base 26. The
loop over file names ends if and only if the name can change or is free. Time
stamps are recorded time. Two things the code does not do as its comments
suggest: existing files are protected by `%c`, not by `%u`, so a pattern with
`%u` or `%t` alone (the default is one) overwrites; and the unique string that
was picked for the first file of a session is used for the second one and then
replaced by the empty one (`Recorder.UniqueIsForgotten` shows a session). An
error in the pipeline while recording makes the recorder take one more frame
without a pipeline to take it (`Recorder.ErrorCrashes`).

**Action muxer** (`MuxerModel`, `MuxerRegistry`, `MuxerObservers`, `Muxer`).
Observers that start from a query and apply what they are told always hold
what a query would say. Prefixes with a dot are forbidden by the documentation
and accepted by the code: names under them are routed elsewhere, and each
operation states exactly when that is harmless. Registrations, weak references
and the muxer's own reference count stay in step.

**Authentication agent** (`PolkitQueue`). One current request, a queue,
cancellation, and signal handlers that answer at once: their recursion comes to
the same as serving one call at a time.

**Applications and windows** (`WindowOrder`, `AppTracking`). The table from
windows to applications, the applications' window lists and states, and the
set of running applications agree. Each operation states exactly when it keeps
that: a tracked window that is no longer interesting is not taken off its
application's list, and a window of another type than NORMAL that is added a
second time with another application found for it stays on both lists. The
cached window order is right although most changes do not mark it stale.

**Application search** (`AppSearch`). Searching the previous results gives
what searching everything gives exactly when each previous term is contained
in a new one, and the shell reuses results only then.

**Application usage** (`AppUsageModel`, `AppUsage`). The iterator over the
nested tables, the stream they are saved to, and what comes back in the next
session. The check for a context without an id compares a pointer with
`< 0` and never fires, so an application in such a context brings the reader
down; and the id of an application that its context has already is freed by the
hash table before it is copied. Which streams lead to either, and which to a
reported error, is stated exactly; what is saved leads to none of them.

## How to read the model

Clocks, what the window manager says about a window, what the file system
holds, iteration orders of hash tables, and the order in which threads or
callers take turns are inputs: parameters, or lists of steps over which the
theorems quantify. Widths that matter are written out (32-bit time
differences, 32-bit window user times, unsigned memory counters, 16-bit event
ids). Ghost state that the original does not have (histories, outstanding
registrations, the run of a stream) is marked as such or only used in
specifications.

## Model

| member | source | states |
|---|---|---|
| PerfLogFormat.LERoundTrip | src/shell-perf-log.c:384-387 | Reading k little-endian bytes gives back every value below 256^k that was written as k bytes. |
| PerfLogFormat.ArgRoundTrip | src/shell-perf-log.c:736-761 | Decoding an argument by its signature inverts encoding it, with any bytes behind it, and consumes exactly its bytes. |
| PerfLogFormat.ReadRecord | src/shell-perf-log.c:714-763 | At the offset of record k of an encoded block, the bytes read back as the header and argument of record k. |
| PerfLogInvariant.AppendPacked | src/shell-perf-log.c:370-382 | Next-fit keeps every block within 8192 bytes and any two neighbours above 8192 bytes together. |
| PerfLogInvariant.RecordEventReplay | src/shell-perf-log.c:332-391 | An accepted event is replayed last, after exactly what was replayed before, whether an escape record had to be written or not. |
| PerfLogInvariant.DefineInv | src/shell-perf-log.c:235-282 | Defining an event keeps the log well formed and its replay the same: a refusal changes nothing, and a new id is the next index. |
| PerfLogReplay.ReplayLaw | src/shell-perf-log.c:332-391 | For every run of the public interface and any clock, the log stays well formed, and its replay is the accepted events, shown at the times the running differences add up to and without logged perf.setTime events. |
| PerfLogReplay.DriftLaw | src/shell-perf-log.c:354-368 | A replayed time minus the true one is the sum of the backward steps of the clock since the last escape record. |
| PerfLogReplay.RunDrift | src/shell-perf-log.c:695-770 | In a run without logged perf.setTime no replayed event is early, and each is late by exactly its drift. |
| PerfLogReplay.RoundTrip | src/shell-perf-log.c:695-770 | The replay equals the recorded history (order, times, names, signatures, arguments) if and only if no accepted event has an earlier time than the one before it and perf.setTime was not logged. |
| PerfLogHistory.RunMatches | src/shell-perf-log.c:193-691 | After any run the definitions, the switch, and each statistic's value and mark are what the calls alone say, and the accepted events are those of the history that they define: by name, type, size and the order of the calls. |
| PerfLogHistory.ReplayOfCalls | src/shell-perf-log.c:695-770 | The replay of any run is that history, shown at the times the differences add up to; it is exactly that history under the condition of RoundTrip. |
| PerfLogInvariant.RecordsWritten | src/shell-perf-log.c:354-391 | An accepted event adds its record with the time passed, none if the clock went back, and before it a perf.setTime record if and only if more than 0xffffffff microseconds have passed. |
| PerfLogInvariant.UpdateIs | src/shell-perf-log.c:523-590 | An update sets exactly the statistic of that name and type. |
| PerfLogClock.ForwardClockRoundTrip | src/shell-perf-log.c:627-770 | For every run whose clock readings never go back, the replay equals the history of its calls if and only if perf.setTime was not accepted and no collection that still records after its callbacks had an event accepted from one of them later than its own first reading. |
| PerfLogClock.ForwardIsNotEnough | src/shell-perf-log.c:627-684 | A run with such readings whose replay is not its history: the first collection of an enabled log, with a callback that logs. |
| PerfLogClock.RunTimes | src/shell-perf-log.c:627-684 | With forward readings the event times of a run step back exactly where a callback was late. |
| PerfLogReplay.UserSetTimeIsLost | src/shell-perf-log.c:726-732 | A perf.setTime event that a caller logs is accepted and is missing from the replay. |
| PerfLogReplay.FindEventUnique | src/shell-perf-log.c:255-260 | At most one definition has a given name, so looking an event up by name finds the one. |
| PerfLogReplay.TotalSizeLower | src/shell-perf-log.c:370-382 | Twice the bytes in all blocks exceed the capacity of all blocks but one. |
| PerfLogReplay.PackingBound | src/shell-perf-log.c:370-382 | After any run there are at most twice as many blocks as in any other way of storing as many bytes. |
| PerfLogStatistics.RunFaithful | src/shell-perf-log.c:554-590 | In every run that sets statistics only through the update functions, and whose collections lose nothing by CollectionFaithful, the last replayed value of a statistic is the last one the log remembers having written. |
| PerfLogStatistics.ElisionLosesNothing | src/shell-perf-log.c:627-684 | A collection that begins and ends with recording on makes the replay end in perf.statisticsCollected, and before it the last replayed value of every statistic is what the calls, callbacks included, have last set it to. |
| PerfLogStatistics.CollectionFaithful | src/shell-perf-log.c:627-684 | For any callbacks that log no statistic's name: after the collection the log is faithful if and only if the callbacks left it on, or left no statistic due. |
| PerfLogStatistics.CollectFirstDisabled | src/shell-perf-log.c:644-668 | On a disabled log the collection loop writes nothing and still marks every due statistic as written. |
| PerfLogStatistics.CollectionsStayVisible | src/shell-perf-log.c:695-770 | Later replays begin with the earlier ones, so what a collection shows stays visible. |
| PerfLogBlocks.Block.Write | src/shell-perf-log.c:384-387 | The bytes are appended behind the used part of the buffer, and nothing else changes. |
| PerfLogBlocks.Block.WriteRecord | src/shell-perf-log.c:384-390 | The used part grows by the encoding of the record. |
| PerfLogBlocks.BlockQueue.Push | src/shell-perf-log.c:370-390 | The queue of byte buffers encodes the record list to which next-fit has added the record. |
| PerfLog.ReadArg | src/shell-perf-log.c:736-761 | The branches on the signature read what DecodeArg decodes, with the bytes used. |
| PerfLog.ShellPerfLog.constructor | src/shell-perf-log.c:136-168 | A new log is the initial model: the built-in events with fixed ids, one empty block, disabled. |
| PerfLog.ShellPerfLog.DefineEvent | src/shell-perf-log.c:235-282 | The new definition and id are the model's, including every refusal (unknown signature, name already used, ids used up). |
| PerfLog.ShellPerfLog.DefineStat | src/shell-perf-log.c:493-521 | Defines the event and registers the statistic, unless one or the other is refused. |
| PerfLog.ShellPerfLog.Lookup | src/shell-perf-log.c:309-330 | The id of the event with the name, or nothing for an unknown name or another signature. |
| PerfLog.ShellPerfLog.RecordOne | src/shell-perf-log.c:332-391 | The byte buffers and clock fields after recording, with the recursive escape, are those of the model. |
| PerfLog.ShellPerfLog.LogOne | src/shell-perf-log.c:400-472 | Logging by name records the event exactly if the log is enabled and name and signature are known. |
| PerfLog.ShellPerfLog.UpdateStatistic | src/shell-perf-log.c:554-590 | The statistic of that name gets the value if it was defined with the type, whatever it was before; no other one changes. |
| PerfLog.ShellPerfLog.CollectStatistic | src/shell-perf-log.c:644-668 | A statistic is written if it was never written or has changed, and then marked. |
| PerfLog.ShellPerfLog.CollectStatistics | src/shell-perf-log.c:627-684 | Callbacks, then the statistics that are due, then perf.statisticsCollected with the time taken. |
| PerfLog.ShellPerfLog.ReplayBlock | src/shell-perf-log.c:703-768 | The inner loop ends exactly at the end of the block, having replayed the block's records with the running time. |
| PerfLog.ShellPerfLog.ReplayAll | src/shell-perf-log.c:695-770 | Reading the byte buffers gives the replay of the records that were written. |
| Batch.Runtime.Release | js/gdm/batch.js:74-79 | The count goes down by one; at zero 'release' is emitted once and the waiting batch goes on; outside holds and roots stay as they are; the invariant is kept. |
| Batch.Runtime.NextTask | js/gdm/batch.js:127-138 | The batch releases its hold after the last task or processes the next one, keeping the invariant. |
| Batch.Runtime.AcquireUntilAfter | js/gdm/batch.js:63-72 | Of a task whose hold is acquired, the batch's hold takes one more acquisition and a connection; otherwise nothing happens. |
| Batch.Runtime.WaitFor | js/gdm/batch.js:185-196 | A consecutive batch waits exactly for a task whose hold is acquired. |
| Batch.Runtime.Process | js/gdm/batch.js:162-202 | Running the current task and going on keeps the invariant and touches only the batch, what is below it, and, once connected, what waits for it. |
| Batch.Runtime.Run | js/gdm/batch.js:140-154 | Running an object that may start keeps the invariant, and no outside hold changes. |
| Batch.Runtime.RunRoot | js/gdm/batch.js:148-154 | A caller can run any object that belongs to no batch. |
| Batch.Runtime.ReleaseLeaf | js/gdm/batch.js:74-79 | Whoever made a hold can release it at any time, even once too often: only that hold and what the batches make of it changes. |
| Batch.Runtime.AcquireLeaf | js/gdm/batch.js:57-61 | Acquiring adds one if the hold is acquired, and fails otherwise. |
| Batch.Runtime.Cancel | js/gdm/batch.js:156-158 | The tasks after the current one are dropped (all of them before the start), and the invariant is kept. |
| Batch.Play | js/gdm/batch.js:45-202 | Any sequence of outside calls keeps the invariant; the outside holds and the roots that have run are what the calls alone say. |
| Batch.PlayCancel | js/gdm/batch.js:156-158 | Any calls, cancel() on a batch, any further calls: of the batch's tasks exactly those that had been run before the cancelling are ever run, they are the tasks it keeps, and it emits 'release' if and only if it has been run and they are done. |
| Batch.InterleavingsAgree | js/gdm/batch.js:45-202 | Two interleavings of the same runs and releases have run the same tasks, hold the same holds and emitted 'release' for the same batches. |
| BatchSteps.LoudRelease | js/gdm/batch.js:67-79 | The last release of a hold its batch waits for leaves the batch with one acquisition too many, or about to move on. |
| BatchSteps.CancelInv | js/gdm/batch.js:156-158 | Cutting off the tasks that follow keeps the invariant. |
| BatchTheorems.HeldUntilDone | js/gdm/batch.js:63-83 | The hold of something that was run is acquired exactly as long as that something is not done. |
| BatchTheorems.ReleasedWhenDone | js/gdm/batch.js:123-138 | A batch's hold has emitted 'release' if and only if the batch was run and all its tasks, at any depth, are done. |
| BatchTheorems.StartedWhenReady | js/gdm/batch.js:162-202 | The tasks run are all of a concurrent batch, and of a consecutive one exactly those whose predecessors are all done. |
| BatchTheorems.ExactlyOnce | js/gdm/batch.js:74-79 | No task is run twice and no hold emits 'release' twice. |
| BatchTheorems.ConsecutiveOrder | js/gdm/batch.js:181-202 | A later task of a consecutive batch starts after every earlier one was run and its hold released. |
| BatchTheorems.CancelledNeverRuns | js/gdm/batch.js:156-158 | An object of a batch that has been run is still among the batch's tasks, so nothing that was cut off has been. |
| BatchTheorems.Confluence | js/gdm/batch.js:45-202 | What was run, what is held and what was released depends only on the outside holds, the roots run and the task lists. |
| BatchTheorems.AllReleased | js/gdm/batch.js:123-138 | Once all outside holds are released, every batch that was run has emitted 'release'. |
| ProvidersModel.Run | src/shell-mobile-providers.c:417-607 | After any events in any order the state says which of country, provider and method under construction exist. |
| ProvidersProof.NoiseIsIgnored | src/shell-mobile-providers.c:417-594 | Text and unknown elements change nothing but the text buffer. |
| ProvidersProof.ApnItemsRun | src/shell-mobile-providers.c:499-534 | The events of an apn element build the method its items mean. |
| ProvidersProof.CdmaItemsRun | src/shell-mobile-providers.c:393-415 | The events of a cdma element build its method and add its SIDs, in document order. |
| ProvidersDocument.GsmItemsRun | src/shell-mobile-providers.c:356-391 | The events of a gsm element add its methods and network ids to the provider, in document order. |
| ProvidersDocument.ProviderItemsRun | src/shell-mobile-providers.c:466-565 | The events of a provider's items build the provider they mean: first name with text, all methods, ids and SIDs. |
| ProvidersDocument.CountryItemsRun | src/shell-mobile-providers.c:466-487 | A country's providers are collected with the last one first. |
| ProvidersDocument.TopItemsRun | src/shell-mobile-providers.c:330-464 | The table has one entry per country element with a code, a later one replacing an earlier one of the same name. |
| ProvidersDocument.ParserReadsDocument | src/shell-mobile-providers.c:290-607 | For every document of the schema's shape, with any attributes on any element, the table built is the meaning of the tree, and nothing is left under construction. |
| ProvidersValues.AttributeIs | src/shell-mobile-providers.c:378-390 | Of several attributes of one name the first one counts. |
| ProvidersValues.StripIs | src/shell-mobile-providers.c:132-141 | Stripping takes off all blanks at both ends and nothing else. |
| ProvidersValues.NetworkIdIs | src/shell-mobile-providers.c:362-377 | A network-id counts if some prefix of its attributes ends with a non-empty last mcc and last mnc; for the first such prefix, the two, stripped, are the two parts in this order. |
| ProvidersValues.StrtoulReads | src/shell-mobile-providers.c:401-411 | Blanks, a sign and digits read as the number or its negative modulo 2^64, or as an error when it does not fit, whatever follows. |
| ProvidersValues.SidIs | src/shell-mobile-providers.c:393-415 | A SID is the number of the first value attribute cut to 32 bits, unless that number is zero or does not fit into 64 bits. |
| ProvidersValues.UpperIs | src/shell-mobile-providers.c:312-320 | Only the letters a to z change in a country code, each to its capital. |
| ProvidersValues.CountryIs | src/shell-mobile-providers.c:307-328 | A country is named by the table of codes under its code in capitals, or else by that code. |
| ProvidersValues.FormatIs | src/shell-mobile-providers.c:298-306 | The database is refused if and only if some format attribute is not 2.0. |
| ProvidersParser.MobileParser.OnStart | src/shell-mobile-providers.c:417-451 | A start element takes the object to the event machine's next state, from every consistent state. |
| ProvidersParser.MobileParser.OnEnd | src/shell-mobile-providers.c:567-594 | An end element takes the object to the event machine's next state, from every consistent state. |
| ProvidersParser.Parse | src/shell-mobile-providers.c:626-708 | Without any precondition on the events, the table is that of the event machine, and for the events of a document its meaning. |
| RecorderSource.MemoryUsedIsExact | src/shell-recorder-src.c:72-110 | In every interleaving memory_used is the total of what is queued, counted but not pushed, and popped but not subtracted, which is what the steps have counted less what was delivered, modulo 2^32, and exactly below it. |
| RecorderSource.QuietMeansNotified | src/shell-recorder-src.c:55-81 | Once an idle has begun after the last change of the counter and has notified, the value last notified is the current one. |
| RecorderSource.StreamOrder | src/shell-recorder-src.c:86-110 | What create returns are the buffers that the steps have added, in order and without gaps; end of stream comes only after all buffers added before the first close, and then for ever. |
| RecorderSource.AddedIs | src/shell-recorder-src.c:246-273 | What has been pushed is, for each push, the buffer counted before it, and for each close the end marker. |
| RecorderSource.IdlesAre | src/shell-recorder-src.c:52-81 | An idle is pending exactly from a change of the counter until the idle clears its id. |
| RecorderSource.KilobytesAre | src/shell-recorder-src.c:255-255 | A buffer counts with its full kilobytes. |
| RecorderSource.WrapAround | src/shell-recorder-src.c:72-81 | Unsigned additions and subtractions stay in step with the true total. |
| RecorderSource.ShellRecorderSrc.UpdateMemory | src/shell-recorder-src.c:72-81 | The counter changes by the delta and at most one idle is queued. |
| RecorderSource.ShellRecorderSrc.AddBufferCount | src/shell-recorder-src.c:246-258 | The buffer's size is counted before the buffer is pushed. |
| RecorderSource.ShellRecorderSrc.CreatePop | src/shell-recorder-src.c:86-110 | After the end marker every call is refused; otherwise the first queued item is taken. |
| RecorderNames.IncrementUnique | src/shell-recorder.c:1136-1153 | The string becomes the next one of '', 'a', ..., 'z', 'aa', ...: its place goes up by one. |
| RecorderNames.PlaceAt | src/shell-recorder.c:1135-1153 | The string at place n has place n, so counting never repeats a string. |
| RecorderNames.AtPlace | src/shell-recorder.c:1135-1153 | Every lower-case string is the one at its place, so counting omits none. |
| Numerals.DecimalIs | src/shell-recorder.c:1203-1212 | The count in a filename is its decimal numeral without leading zeros. |
| RecorderFiles.AppendEscape | src/shell-recorder.c:1196-1253 | Each known escape appends its text, %t its time and then the unique string; others are unknown. |
| RecorderFiles.EscapesAre | src/shell-recorder.c:1196-1253 | The escapes are %%, %c, %d, %t and %u, with these texts, and only %c is a count. |
| RecorderFiles.Expand | src/shell-recorder.c:1191-1259 | The name is the pattern's pieces put together, and whether a count was used is noted, also when an unknown escape follows. |
| RecorderFiles.NameInjective | src/shell-recorder.c:1241-1249 | In a pattern with %u or %t different unique strings give different names, however often they occur. |
| RecorderFiles.CollisionsAreFiles | src/shell-recorder.c:1188-1304 | As long as every try was a collision, the names tried are pairwise distinct existing files. |
| RecorderFiles.TriesEnd | src/shell-recorder.c:1188-1304 | The loop ends if and only if it is not stuck on a taken name without %u or %t under %c, and then within one more try than there are files. |
| RecorderFiles.HowItEnds | src/shell-recorder.c:1276-1303 | Only a name that can be opened is opened; the call gives up on one that cannot, or on a collision with the unique string picked before, and on nothing else. |
| RecorderFiles.Overwrites | src/shell-recorder.c:1261-1279 | A file that exists is opened, and truncated, if and only if no count has been in the filename and the first name is that of a file that exists. |
| Recorder.DefaultOverwrites | src/shell-recorder.c:1265-1279 | With the default pattern, which has a %t and no %c, a file of the first name is truncated at the first try. |
| Recorder.ShellRecorder.TryOnce | src/shell-recorder.c:1188-1300 | One turn of the loop opens, fails or asks for another try exactly as the collision rules say, or ends at an unknown escape or behind the pattern. |
| Recorder.ShellRecorder.OpenOutfile | src/shell-recorder.c:1176-1314 | The file opened is that of the first try that is not a collision; with more turns than files the loop is still going exactly for a stuck call; a file that existed is truncated exactly when no count was in the filename and the first name was taken; a unique string picked earlier is forgotten. |
| Recorder.ShellRecorder.OpenPipeline | src/shell-recorder.c:1506-1561 | A pipeline exists afterwards exactly on success; only one that needs a file counts a file, and only its loop may go on for ever. |
| Recorder.ShellRecorder.StartRecording | src/shell-recorder.c:1697-1736 | A paused stream goes on with the pause taken out of its time; otherwise a new stream begins now. |
| Recorder.ShellRecorder.RecordFrame | src/shell-recorder.c:514-563 | A frame is stamped and stored unless memory is short or the last frame is too recent; without a pipeline to take it the recorder crashes. |
| Recorder.ShellRecorder.OnStagePaint | src/shell-recorder.c:568-584 | Painting takes a frame only while recording. |
| Recorder.ShellRecorder.PauseRecording | src/shell-recorder.c:1748-1774 | One more frame may be taken; the stream stays for resuming unless its name has a count. |
| Recorder.ShellRecorder.Close | src/shell-recorder.c:1785-1805 | Recording ends, and count and unique string start over. |
| Recorder.ShellRecorder.PipelineClosed | src/shell-recorder.c:1446-1469 | After an error in the current pipeline the recorder is closed, or crashes: the latter if and only if it was recording and the frame that pausing takes is not dropped. |
| Recorder.UniqueIsForgotten | src/shell-recorder.c:1176-1314 | A session with the pattern %c%u: the first file takes the unique string 'a', the second uses it and leaves the empty one behind, and a third whose name is taken is refused without another try. |
| Recorder.ErrorCrashes | src/shell-recorder.c:1446-1469 | An error one second into a recording, with memory free, brings the recorder down. |
| Recorder.ShellRecorder.StreamOk | src/shell-recorder.c:514-563 | At any moment the stream holds the frames that its paints and pauses call for; their stamps ascend, are spaced within each segment and are bounded in number by the recorded time. |
| RecorderTime.StampIsRecordedTime | src/shell-recorder.c:553-553 | A frame taken at time t is stamped with the total length of the recording segments up to t. |
| RecorderTime.LastStampIsRecordedTime | src/shell-recorder.c:1755-1758 | So is the frame that pausing takes. |
| RecorderTime.DroppedExactly | src/shell-recorder.c:522-535 | A frame is dropped if and only if memory is short or the previous frame of the segment is less than the threshold away. |
| RecorderTime.Threshold | src/shell-recorder.c:533-535 | The threshold is three quarters of the interval that the framerate asks for, in full nanoseconds. |
| RecorderTime.FramesAreTaken | src/shell-recorder.c:514-584 | In any run the stream holds exactly the frames of the paints and pauses that came while recording, with memory to spare and the threshold after the last frame of the segment, each stamped with the recorded time. |
| RecorderTime.FramesBounded | src/shell-recorder.c:514-563 | Stamps never decrease, are a threshold apart within a segment, and their number less one per segment, times the threshold, is at most the recorded time. |
| MuxerModel.SplitFullName | src/gactionmuxer.c:101-135 | Splitting the joined name of a dot-free prefix gives the prefix and the action name back, dots in the action name or not. |
| MuxerModel.FullNameSplit | src/gactionmuxer.c:101-121 | A name splits at its first dot into parts that join to the name again; without a dot it does not split. |
| MuxerModel.TellEffect | src/gactionmuxer.c:137-171 | Telling the watchers of a name changes the beliefs of exactly those, each by the change. |
| MuxerRegistry.RegisterKeeps | src/gactionmuxer.c:342-364 | Registering keeps watchers, weak references, table and reference count equal to the outstanding registrations. |
| MuxerRegistry.ForgetKeeps | src/gactionmuxer.c:307-377 | So does undoing one registration, which frees the record with its last watcher. |
| MuxerRegistry.NoDanglingWeakRef | src/gactionmuxer.c:333-340 | A weak reference points to a record that exists and lists the observer. |
| MuxerRegistry.RegistrationIsWatched | src/gactionmuxer.c:342-377 | What is registered more often than unregistered is in the table and watched. |
| MuxerRegistry.FinalizeFindsEmptyTable | src/gactionmuxer.c:390-401 | When no reference of its own is left, the table is empty, so the assertion in finalize holds. |
| MuxerObservers.ToldTheTruth | src/gactionmuxer.c:137-220 | Observers that are told exactly what a query would find changed stay in agreement with queries. |
| MuxerObservers.RemoveAnnounced | src/gactionmuxer.c:496-522 | The removals announced for a group are exactly what changes for queries. |
| MuxerObservers.InsertAnnounced | src/gactionmuxer.c:452-484 | The additions announced for a group are exactly what changes for queries. |
| MuxerObservers.ToldExactly | src/gactionmuxer.c:137-220 | Observers that agreed before and have been told of some changes still agree if and only if every watched name has changed as they were told. |
| MuxerObservers.SignalAnnounced | src/gactionmuxer.c:137-220 | When a group changes an action and signals it, queries under its prefixes without a dot change as announced, and all others, those under its prefixes with a dot included, not at all. |
| MuxerObservers.DottedSignal | src/gactionmuxer.c:137-220 | Observers agree with queries after a group's signal if and only if, under each prefix of the group with a dot, a watched name is routed to something that already is as announced. |
| MuxerObservers.DottedPrefixUnreachable | src/gactionmuxer.c:101-121 | No query is ever routed to a prefix that contains a dot. |
| MuxerObservers.DottedInsert | src/gactionmuxer.c:432-484 | Inserting under a prefix with a dot, replacing another group or not, keeps observers and queries in agreement if and only if every watched name of the group is routed elsewhere to an equal action and every watched name without a successor to nothing. |
| MuxerObservers.DottedRemove | src/gactionmuxer.c:486-522 | Removing a prefix with a dot keeps them in agreement if and only if every watched name of its group is routed to nothing. |
| MuxerObservers.AnnouncedAnyway | src/gactionmuxer.c:137-220 | Whatever is announced without changing a query keeps them in agreement if and only if each watched name already was as announced. |
| Muxer.GActionMuxer.QueryAction | src/gactionmuxer.c:222-241 | A query goes to the group of the prefix before the first dot, with the rest of the name. |
| Muxer.GActionMuxer.RegisterObserver | src/gactionmuxer.c:342-364 | The observer becomes one more watcher and begins with what a query says. |
| Muxer.GActionMuxer.ForgetOne | src/gactionmuxer.c:333-377 | A weak reference and an occurrence go together. |
| Muxer.GActionMuxer.UnregisterObserver | src/gactionmuxer.c:366-377 | One registration of the observer for the name is undone. |
| Muxer.GActionMuxer.DestroyObserver | src/gactionmuxer.c:333-340 | An observer that goes away leaves no registration behind and disturbs no other. |
| Muxer.GActionMuxer.TellWatchers | src/gactionmuxer.c:137-220 | Every watcher of the name is told. |
| Muxer.GActionMuxer.TellPrefixes | src/gactionmuxer.c:137-220 | A group's signal reaches the watchers of its action under every prefix of the group, with a dot or without, once each, and nobody else. |
| Muxer.GActionMuxer.GroupSignal | src/gactionmuxer.c:137-220 | A group changes and signals: the watchers of its action's names are told, the registry is as before, and observers agree with queries exactly under the condition of DottedSignal. |
| Muxer.GActionMuxer.Remove | src/gactionmuxer.c:496-522 | The prefix is gone, the registry is as before, and observers agree with queries; for a prefix with a dot exactly under the condition of DottedRemove. |
| Muxer.GActionMuxer.Insert | src/gactionmuxer.c:452-484 | The prefix names the group, replacing another one, and observers agree with queries; for a prefix with a dot exactly under the condition of DottedInsert. |
| PolkitQueue.RunKeeps | src/shell-polkit-authentication-agent.c:295-440 | Every run of arrivals, completions and cancellations keeps the invariant, whatever the handlers answer at once. |
| PolkitQueue.ExactlyOnePlace | src/shell-polkit-authentication-agent.c:329-378 | Each request that callers have made is current, waiting or completed: exactly one of these, and completed once. |
| PolkitQueue.GoneWhenCompleted | src/shell-polkit-authentication-agent.c:295-359 | A request that callers have made is in memory for an idle to find if and only if it has not been completed. |
| PolkitQueue.Fifo | src/shell-polkit-authentication-agent.c:361-418 | The requests made, without those cancelled while waiting, are those initiated and then those waiting, in this order; they are completed in the order of initiation, and wait only while one is current. |
| PolkitQueue.ArrivedIs | src/shell-polkit-authentication-agent.c:380-418 | After any run the requests that have arrived are those of its calls, in order. |
| PolkitQueue.OneCallAtATime | src/shell-polkit-authentication-agent.c:239-440 | Each operation comes to the same as taking one completion at a time from a list, those of an initiated request's handler before the rest; each completes what is then current, with its own dismissed flag. |
| PolkitQueue.AuthenticationAgent.AuthRequestComplete | src/shell-polkit-authentication-agent.c:329-359 | The current request makes room for the next one; a waiting one is only taken off the queue. |
| PolkitQueue.AuthenticationAgent.MaybeProcessNextRequest | src/shell-polkit-authentication-agent.c:361-378 | The first waiting request is initiated if none is current, with everything its handler does before returning; the recursion ends because the queue shrinks. |
| PolkitQueue.AuthenticationAgent.HandleSignal | src/shell-polkit-authentication-agent.c:239-290 | Calls made from within a signal handler take effect in order. |
| PolkitQueue.AuthenticationAgent.CompleteRequest | src/shell-polkit-authentication-agent.c:432-440 | Completing finishes the current request with the given flag and is refused when there is none. |
| PolkitQueue.AuthenticationAgent.InitiateAuthentication | src/shell-polkit-authentication-agent.c:380-418 | A request that arrives goes to the end of the queue behind a current one, and is initiated at once on an idle agent. |
| PolkitQueue.AuthenticationAgent.HandleCancelledInIdle | src/shell-polkit-authentication-agent.c:295-313 | Cancelling the current request emits "cancel", whose handler may complete it; a waiting one is taken off the queue at once; a request that is neither is gone, and the pointer dangles. |
| WindowOrder.DifferenceSign | src/shell-app.c:709-709 | The wrapped 32-bit difference is the true one if and only if that fits into an int. |
| WindowOrder.CompareIsBefore | src/shell-app.c:682-710 | For user times within 2^31 the comparison is the documented order. |
| WindowOrder.CompareExact | src/shell-app.c:682-710 | For user times less than 2^32 apart the comparison says what is documented if and only if the windows differ in workspace or visibility, or the difference of the times fits into 32 signed bits. |
| WindowOrder.SortSorted | src/shell-app.c:723-739 | Sorting with the comparison gives a list in the documented order. |
| WindowOrder.WithoutSorted | src/shell-app.c:985-1003 | Removing a window keeps a sorted list sorted. |
| WindowOrder.HeadTimeChange | src/shell-app.c:925-940 | A new user time of the first window, which does not mark the list stale, keeps it sorted if and only if the window does not fall behind the second. |
| WindowOrder.HeadTimeGrows | src/shell-app.c:925-940 | A growing user time of the first window keeps the list sorted. |
| AppTracking.ShellAppSystem.NotifyAppStateChanged | src/shell-app-system.c:635-653 | RUNNING adds the application to the running set, STOPPED removes it, STARTING leaves it. |
| AppTracking.ShellApp.StateTransition | src/shell-app.c:897-916 | The state changes unless from RUNNING to STARTING; stopping drops the running state; the running set follows. |
| AppTracking.ShellApp.AddWindow | src/shell-app.c:958-983 | A new window goes to the front, marks the list stale and makes the application RUNNING unless it is STARTING. |
| AppTracking.ShellApp.RemoveWindow | src/shell-app.c:985-1003 | The window goes, and with the last one the application stops; a valid cached order stays valid. |
| AppTracking.ShellApp.HandleStartupSequence | src/shell-app.c:1031-1061 | A stopped application starts; a completed sequence makes it RUNNING or STOPPED by whether it has windows. |
| AppTracking.ShellApp.GetWindows | src/shell-app.c:723-739 | The list returned is a rearrangement of the windows, and in the documented order as of now if what was not marked stale was and the user times are within 2^31. |
| AppTracking.ShellApp.OnUserTimeChanged | src/shell-app.c:925-940 | The list is still in order where relied on if and only if the change marked it stale or the first window does not fall behind the second, and always when user times grow. |
| AppTracking.PlayApp | src/shell-app.c:723-1003 | After any run of additions, removals, growing user times, switches and listings the windows are the right ones and a list not marked stale is in order. |
| AppTracking.PlayTracker | src/shell-window-tracker.c:419-498 | After any run of additions, removals, class changes, startup sequences, user times and switches, with being interesting fixed and no second adding of tracked windows of other types, the table holds the right windows, table, lists and running set agree, and lists not marked stale are in order. |
| AppTracking.TrackAgrees | src/shell-window-tracker.c:434-455 | Entering a window for an application keeps table and lists in agreement if and only if it had no other application. |
| AppTracking.UntrackAgrees | src/shell-window-tracker.c:467-490 | Dropping a window from the table keeps agreement if and only if it is dropped from the list as well. |
| AppTracking.ShellWindowTracker.GetAppForWindow | src/shell-window-tracker.c:327-396 | The known application for a NORMAL or remote window, else the one found, else a new one that lists the window already. |
| AppTracking.ShellWindowTracker.TrackWindow | src/shell-window-tracker.c:434-455 | The application chosen is entered; for an interesting window table, lists and running set agree afterwards if and only if it was not tracked or keeps its application; for others nothing happens; cached orders stay right. |
| AppTracking.ShellWindowTracker.DisassociateWindow | src/shell-window-tracker.c:467-490 | The entry goes; everything agrees afterwards if and only if the window was not tracked or is still interesting. |
| AppTracking.ShellWindowTracker.OnUnmanaged | src/shell-app.c:918-923 | If "unmanaged" comes before window-removed, table and list disagree, and for the last window the state that the tracker will assert is gone. |
| AppTracking.ShellWindowTracker.OnWmClassChanged | src/shell-window-tracker.c:419-432 | Removing and adding again gives the window the application found for it, and agreement is kept if and only if the window is interesting or was not tracked. |
| AppTracking.ShellWindowTracker.OnUserTime | src/shell-app.c:925-940 | A window's growing user time leaves the cached orders of all applications right. |
| AppTracking.ShellWindowTracker.OnWorkspaceSwitch | src/shell-app.c:942-956 | After a switch no list that is relied on is out of order. |
| AppTracking.ShellWindowTracker.OnStartupSequenceChanged | src/shell-window-tracker.c:570-582 | A startup sequence keeps agreement and sets the state as promised. |
| AppTracking.ShellWindowTracker.HandlersFindRunningState | src/shell-app.c:925-990 | For a tracked window the running state exists and lists it, so the assertions do not fire. |
| AppSearch.MatchTerm | src/shell-app.c:1370-1425 | A prefix match if the first occurrence in name or command starts a word or some keyword starts with the term, else a substring match if the term occurs anywhere. |
| AppSearch.MatchSearchTerms | src/shell-app.c:1357-1431 | No match unless every term is found; a prefix match if one of them is one; no match for no terms. |
| AppSearch.WhereWordsBegin | src/shell-app.c:1370-1425 | A term is a prefix match exactly if its first occurrence is at the beginning of the name or behind a blank in it, at the beginning of the command or behind a hyphen in it, or if a keyword begins with it; it matches at all exactly if it occurs in one of the four texts. |
| AppSearch.BestTermDecides | src/shell-app.c:1357-1431 | Several terms match as well as the best of them, if all of them match; none match nothing. |
| AppSearch.DoMatch | src/shell-app.c:1433-1464 | The application is put in front of the list for its match, if it is shown. |
| AppSearch.Search | src/shell-app-system.c:734-818 | The result is the prefix matches followed by the substring matches, each group complete. |
| AppSearch.SortBy | src/shell-app-system.c:701-713 | Sorting by any comparison loses and adds nothing. |
| AppSearch.HitsPermuted | src/shell-app-system.c:734-762 | The order in which a table is walked does not matter. |
| AppSearch.RefinementCovers | src/shell-app-system.c:793-818 | Earlier terms cover new ones for all applications if and only if there are no new terms, or each of the earlier ones (at least one) is contained in a new one. |
| AppSearch.SubsearchIsSearch | src/shell-app-system.c:793-818 | Under that condition searching the earlier results gives what searching everything gives, with the same split. |
| AppSearch.SubsearchLoses | src/shell-app-system.c:793-818 | Without it there is an installed application that a full search finds and the subsearch loses. |
| AppSearch.SearchSystem.UpdateSearchResults | js/ui/search.js:368-418 | Whether results are reused or not, the outcome is that of a full search for the new terms. |
| AppUsage.UsageIterator.Next | src/shell-app-usage.c:212-248 | A record that was not visited yet, its context being the last one or new; at the end exactly all records were visited. |
| AppUsage.UsageIterator.Remove | src/shell-app-usage.c:250-257 | Only the record just visited goes, and the walk can go on. |
| AppUsage.ShellAppUsage.Normalize | src/shell-app-usage.c:260-274 | Every score is halved exactly once. |
| AppUsage.ShellAppUsage.IncrementUsage | src/shell-app-usage.c:276-298 | The application's score goes up by the full units of focus in 32-bit elapsed time and its time is set, and no other record changes; if and only if there was a unit and the score passes the limit, every score is then exactly half of that. A save is queued if there was a unit. |
| AppUsageModel.IncrementBounded | src/shell-app-usage.c:276-298 | All scores stay within the limit if and only if the raised score was at most twice the limit. |
| AppUsage.ShellAppUsage.Clean | src/shell-app-usage.c:581-604 | Exactly the records with a low score not seen for a week are removed. |
| AppUsage.ShellAppUsage.SaveRecord | src/shell-app-usage.c:704-747 | A record of an installed application is written, others are skipped. |
| AppUsage.ShellAppUsage.Save | src/shell-app-usage.c:675-766 | The stream is well nested, opens no context twice, has exactly one application element for each record of an installed application, with its score, time and windows, and reads back, without an error, a crash or a repeated application, as these records. |
| AppUsage.ShellAppUsage.OnStartElement | src/shell-app-usage.c:773-864 | Tables, context and errors after a start element are those of the reading function; an application without a context crashes, and a repeated one with open windows has its freed id read. |
| AppUsage.ShellAppUsage.RestoreFromFile | src/shell-app-usage.c:901-947 | What was read before any error is kept and cleaned. |
| AppUsage.NextSession | src/shell-app-usage.c:675-947 | Saved in one session and restored in the next, the tables are the installed applications' records, cleaned; the applications with open windows are remembered. |
| AppUsageModel.RestoredRecord | src/shell-app-usage.c:675-947 | A record is lost exactly when its application is not installed, or its score is low and its time, modulo 2^32, more than a week ago; it keeps its score, its time modulo 2^32, and is unchanged if and only if the time fits into 32 bits. |
| AppUsageModel.SecondRound | src/shell-app-usage.c:675-947 | Saving and restoring again changes nothing more. |
| AppUsageModel.MissingContextId | src/shell-app-usage.c:794-802 | A context without an id is not reported, and an application inside it brings the reader down. |
| AppUsageModel.RepeatedApplication | src/shell-app-usage.c:832-845 | An application given twice in its context, the second time with open windows, has the freed copy of its id copied. |
| AppUsageModel.ReaderCrashes | src/shell-app-usage.c:773-879 | For every table and stream: of the events that are an unknown element or an application without an id, an application where the last context tag gave no id, or an application with open windows whose record the table or an earlier application of the same context has brought, the first one decides whether the reader reports an error, crashes, or reads freed memory; and it does so only then. |
| AppUsageModel.StillReading | src/shell-app-usage.c:773-879 | Reading goes on to the end exactly if no such event occurs; the context is then the last one given, and the tables hold a record exactly if they did before or an application element brought it. |
| AppUsageModel.RunningIs | src/shell-app-usage.c:837-845 | Without an error, the applications remembered as running are those whose elements had open windows, the last one first. |

## Left out

- Drawing, actors, X11 events, the tray, cursors and screenshots, D-Bus, GStreamer and GTK calls: no logic of their own.
- XML text and its tokenizer: the parsers are modelled on element and text events, and attributes that are numbers on their values.
- Performance log: the JSON dump, the timer that triggers collections, and byte orders other than little-endian.
- PerfLogReplay.ReplayLaw: replayed times are unbounded integers, so a drift beyond the range of 64 bits is not modelled.
- PerfLog.ShellPerfLog.UpdateStatistic: the table of statistics by name is searched as a list, which has the same entries.
- Batch.Play: task handlers that call cancel, acquire or release synchronously while a batch is on the stack (in js/gdm/loginDialog.js it is signals, timeouts and ends of animations that release pending holds and cancel batches; a hold that its own handler has released already counts as released beforehand), task objects shared by two batches, and batches run twice are not modelled; objects are identified by their number.
- Batch tasks that are neither functions nor tasks: the constructor's type check.
- Provider parser: country codes are given as a table, `_("Default")` is the untranslated word, and providers and methods are values without reference counts and localized names.
- ProvidersDocument.ParserReadsDocument: stated for documents of the schema's shape, where elements with a reserved name occur only where the schema has them; other event sequences are covered by ProvidersModel.Run.
- Screencast source: buffers are smaller than 4 GB, and the queue is unbounded as in GLib.
- Recorder.ShellRecorder.OpenOutfile: what the scan reads behind a pattern that ends in a lone %; names stand for paths, and date and time are the same for all tries.
- RecorderTime.FramesBounded: for a fixed positive framerate whose quadruple fits into an int (the property also allows 0, which divides by zero), and a clock that does not run backwards.
- Recorder: the object's own reference count, the memory meter, cursors, a stage that changes its size, and what happens after a crash.
- Action muxer: activation and state change requests, which only forward a call, and the platform data.
- AppUsage.ShellAppUsage.OnStartElement: what the code goes on to do after it has copied a freed id.
- PolkitQueue.AuthenticationAgent.HandleCancelledInIdle: what is read through a dangling pointer; PolkitQueue.RunKeeps is about runs whose idles find their requests.
- Authentication agent: the identities offered, and cancellation before the request has been queued.
- AppTracking.ShellApp.GetWindows: the order of windows whose visibility or workspace changes while they are tracked, which nothing marks stale.
- Window tracker: how window class, process id and window group lead to an application (the result is an input), the focused application, and child processes.
- `shell_app_compare` and sorting by usage score: the comparisons are not preorders, so no order is claimed; AppSearch.SortBy claims a permutation.
- AppSearch.SearchSystem.UpdateSearchResults: terms are already normalized and case-folded, at least one term is given, and the installed applications do not change between searches.
- Application usage: focus and idle signals, sorting by score, errors while writing, and scores as floating point numbers (a score is an exact number that survives being written).
- `run_leisure_functions` (src/shell-global.c) looks at the first closure each time; it is not part of this model.
- `src/shell-network-agent.c`: keyring and NetworkManager calls.
