# AnalysisBuddy: the log engine's ingest-to-query path

AnalysisBuddy imports log files through plugins, keeps them in a columnar store and answers
budgeted range queries. This project models that path in Dafny, with the small concurrent
protocols that guard it, and proves properties of the model.

Data flow, and the modules that model it:

- A plugin parses a file in two passes (`CsvEngine`, `CsvLine`, with the text columns of
  `KeyValues`; `CsvTable` says what becomes of a printed table and `CsvReports` what the progress
  reports tell) or through the Python SDK (`EmitContext`) and writes numbered batches (`Batches`)
  as newline-delimited frames, read by `PluginFrame` (plugin runtime), `HostFrame` (host) and
  `NdjsonTransport` (.NET SDK) over the common notion of lines in `ByteLines`.
- The host routes frames, validates sequence numbers and fans notifications out with loss
  (`Rpc`); a forward task and a sink task carry one parse to the store (`HostBridge`, and from
  its subscription on `Subscription`; `CleanParse` says what a verdict means and that a parse
  without faults gets through).
- The store (`Store`) appends batches to columns and side tables and sorts them once when a file
  is frozen. `Ledger` is the reference it is proved against: functions that read the plain list
  of received records. `Query` and `Lttb` answer range queries, `LttbGeometry` says what
  a downsampling is on paper; `EndToEnd` joins the whole path.
- `PipelineBridge` is the import task against `cancel_parse` and `unload_file`, `ImportOutcome`
  how it ends; `MemoryBudget` its budget check; `Jobs` the server's job registry; `Dispatch` the
  parse slot inside a plugin.
- `Stderr` and `ProgressThrottle` are the bounded buffers beside the path.

Code that updates fields in place is a class whose methods are proved against functions of the
old state. Concurrent protocols are state machines: a `Step` is one lock section or one atomic
operation, a run is any list of enabled steps (`Runs`), and the theorems hold for every run.
UTF-8 validity, JSON, time stamps and number formats are function parameters, floating-point
numbers are reals, instants are natural numbers.

## Results that differ from the documentation

The code was followed where it and its documentation disagree; each case comes with a concrete
input or run and with the exact condition.

- A query with a budget of 1 or 2 returns everything it finds (`Query.BudgetIsKeptIff`; three
  points for a budget of 2 in `Query.BudgetOfTwoIsExceeded`).
- The host accepts or rejects a line of 8 MiB + 1 to 8 MiB + 8191 bytes depending on how the
  bytes were read (`HostFrame.IndependentIffNotBorderline`, for whole sessions
  `HostFrame.SessionsAgreeIff`, a line in `HostFrame.SomeLineDependsOnReads`); section 1.3 of the protocol sets the limit at 8 MiB.
- A `cancel_parse` that gives up after ten seconds can leave a file behind: exactly when the
  import, as the cancel wins the swap, has not reached its parse or has passed its last look at
  the flag (`PipelineBridge.SwapLeavesResidueIff`; a run in `PipelineBridge.TimeoutLeavesResidue`).
- An `unload_file` can be lost: exactly when it looks for the job before the import has registered
  it (`PipelineBridge.UnloadIsLostIff`; a run in `PipelineBridge.EarlyUnloadIsLost`).
- A drain can miss calls: exactly those that had seen the channel alive and were not yet in the
  table when it ran (`Rpc.DrainMissesIff`; a run in `Rpc.DrainCanMissACall`).
- The back-pressure verdict needs a drop count that is not that of the parse: with the parse's
  own count it is never reached (`HostBridge.NeverBackpressure`), and with one left over in the
  adapter table, which `reload_session` does not refresh, it blames a wrong total on drops that
  did not happen (`HostBridge.BackpressureIff`, `HostBridge.StaleCountMisleads`).
- `parse` calls a loaded file "not loaded" while it is being parsed (`Dispatch.ParseDeniedIff`,
  `Dispatch.ParseCanDenyALoadedFile`).
- A cancel that turns a queued job over before the job's flag is listed shows it as cancelled while
  its files are imported: exactly when there are files and nobody has set the flag by then
  (`Jobs.FlipLeaksIff`; a run in `Jobs.BlindCancelStartsPaths`).
- `key_values` of the CSV plugin is described as showing the newest row up to an instant. It shows
  the last one in file order among the first 5000 cells: the newest at every instant exactly when
  there are at most 5000 cells with text and every cell that an earlier time follows comes once
  more behind it (`CsvEngine.KeyValuesIff`, `KeyValues.ShowsNewestIff`; two rows in
  `KeyValues.OlderValueIsShown`).
- A progress report of the CSV plugin can show more than 100 percent, which section 3.3 of the
  protocol rules out: exactly when one is due in front of the last line of a file that is not
  empty (`CsvReports.PassesHundredIff`, a file in `CsvReports.TwoHundredPercent`).
- The two CSV splitters are described as equivalent; they agree exactly on lines without a quote
  inside a non-empty unquoted field (`CsvLine.CopiesAgreeIff`; they differ on `a"b` in
  `CsvLine.CopiesDiffer`).
- The parse pass of the CSV plugin takes a header that is not on line 1 for a data row when it
  reads as one (`CsvEngine.PassesAgreeIff`, a file in `CsvEngine.HeaderOffLineOne`). That takes a
  header set in the configuration: a detected one has no numeric cell
  (`CsvEngine.TextHeaderAgrees`).

## Model

| member | source | states |
|---|---|---|
| Ledger.RecordsAreConserved | core/ab-pipeline/src/store.rs:361-383 | Every received record is a point of exactly one declared metric or is counted as undeclared. |
| Ledger.TagsAreConserved | core/ab-pipeline/src/store.rs:229-243 | The running tag total is the number of tag entries on the stored points. |
| Ledger.TagsFitTheLimit | core/ab-pipeline/src/store.rs:229-243 | No tag is dropped while all tags of the file fit its limit. |
| Ledger.RecordWeighsItsTexts | core/ab-pipeline/src/store.rs:80-102 | A record weighs 24 bytes, the characters of all its texts and four bytes per tag entry. |
| Ledger.BytesBoundRecords | core/ab-pipeline/src/store.rs:366-379 | The bytes of a file bound the number of its declared records, 24 each. |
| Ledger.RawLinesAreSampled | core/ab-pipeline/src/store.rs:214-228 | Of k non-empty raw lines of a metric exactly floor(k / 100) are kept. |
| Ledger.StableSortSorts | core/ab-pipeline/src/store.rs:254-261 | The reference sort orders by time stamp and keeps the same bag of points. |
| Ledger.SortCommutesWithWindow | core/ab-pipeline/src/store.rs:254-261 | Sorting and restricting to a time window commute. |
| Ledger.EqualTimestampsKeepArrivalOrder | core/ab-pipeline/src/store.rs:254-257 | Points with one time stamp leave the sort in arrival order. |
| Ledger.KeyOrderIsOnto | core/ab-pipeline/src/store.rs:256-257 | An index list ordered by (time stamp, index) is a permutation. |
| Ledger.KeyOrderGathersStableSort | core/ab-pipeline/src/store.rs:254-261 | Gathering by any such list is the stable sort, whatever the unstable library sort does. |
| Ledger.SortKeepsCounts | core/ab-pipeline/src/store.rs:262-278 | The sort keeps the numbers of tag entries and raw lines. |
| Ledger.BareSort | core/ab-pipeline/src/store.rs:254-261 | The order of points does not depend on their tags and raw lines. |
| Ledger.WindowOfSorted | core/ab-pipeline/src/query.rs:55-62 | On sorted points the slice between the two partition points is the filtered list. |
| Store.Rekey | core/ab-pipeline/src/store.rs:268-277 | Re-keying a side table by the inverse permutation merges and loses no entry. |
| Store.RekeyedColumn | core/ab-pipeline/src/store.rs:262-278 | After the re-keying every key points at the very record that carried the entry. |
| Store.InversePositions | core/ab-pipeline/src/store.rs:264-267 | The position array holds the new position of every index, cast to 32 bits; up to 2^32 points it is the inverse of the order, both ways. |
| Store.MoveKeys | core/ab-pipeline/src/store.rs:268-277 | The loop over a side table moves every key to its new position. |
| Store.FileData.constructor | core/ab-pipeline/src/store.rs:177-192 | A new file is registered, empty and consistent. |
| Store.FileData.AppendRecord | core/ab-pipeline/src/store.rs:195-204 | Time stamp and value are pushed to the metric's columns; the index is their old length modulo 2^32. |
| Store.FileData.AppendSide | core/ab-pipeline/src/store.rs:207-244 | Every hundredth raw line and the tags within the file limit are stored at the index; the rest is counted as dropped. |
| Store.FileData.StoreRecord | core/ab-pipeline/src/store.rs:366-379 | The columns of the record's metric gain exactly one point; no other metric changes; bytes and tag counts grow by the record's share. |
| Store.FileData.IngestRecord | core/ab-pipeline/src/store.rs:361-381 | Columns and all counters agree with the received list extended by the record. |
| Store.FileData.IngestAccepted | core/ab-pipeline/src/store.rs:366-379 | A declared record reaches the columns of its own metric and no others. |
| Store.FileData.IngestAll | core/ab-pipeline/src/store.rs:360-381 | The same for a whole batch, with the number of appended records. |
| Store.FileData.Append | core/ab-pipeline/src/store.rs:338-387 | A batch is appended whole or rejected with its error and without any change. |
| Store.FileData.FreezeMetric | core/ab-pipeline/src/store.rs:248-279 | A metric's columns become those of its stably sorted points, and with up to 2^32 points its side tables, too. |
| Store.FileData.FreezeSort | core/ab-pipeline/src/store.rs:247-280 | The same for every metric of the file. |
| Store.FileData.FreezeFile | core/ab-pipeline/src/store.rs:399-410 | A file freezes exactly when it is not frozen and the declared total is the received one; its bytes stay. |
| Store.FileData.MetricCounts | core/ab-pipeline/src/store.rs:195-244 | The length of a metric's columns and, up to 2^32 points, the tag entries and raw lines found in its tables are those of its points, before and after the freeze. |
| Store.FileData.Conservation | core/ab-pipeline/src/store.rs:359-383 | In every state: records received, bytes and tags are accounted for by the counters, and what the columns and tables hold adds up to them. |
| Store.Store.Register | core/ab-pipeline/src/store.rs:308-323 | A fresh id gets an empty file; a known id is an error and changes nothing. |
| Store.Store.AppendBatch | core/ab-pipeline/src/store.rs:327-388 | The checks in their order; a rejected batch changes nothing; an accepted one extends the log. |
| Store.Store.Freeze | core/ab-pipeline/src/store.rs:393-411 | Errors for unknown, frozen and miscounted files; otherwise the log is frozen and the bytes stay. |
| Store.Store.Unload | core/ab-pipeline/src/store.rs:463-465 | Exactly the one file is gone. |
| Store.Store.MemoryBytes | core/ab-pipeline/src/store.rs:470-476 | The loop adds up the bytes of all files. |
| Store.Store.FrozenSeries | core/ab-pipeline/src/store.rs:493-500 | Only frozen files answer, with the stably sorted points of the metric. |
| Lttb.EvenBoundsPartition | core/ab-pipeline/src/lttb.rs:18-28 | The m - 2 buckets cover the interior without gap, are not empty and differ by at most one point. |
| Lttb.BucketOfPoint | core/ab-pipeline/src/lttb.rs:22-28 | Every interior point lies in exactly one bucket. |
| Lttb.SelectionAscends | core/ab-pipeline/src/lttb.rs:34-66 | Chosen indices ascend strictly, one per bucket, with both ends. |
| Lttb.SelectionIsUnique | core/ab-pipeline/src/lttb.rs:34-61 | The conditions on a selection leave no choice. |
| Lttb.DownsamplingIsUnique | core/ab-pipeline/src/lttb.rs:10-66 | So the downsampled values are determined by the input. |
| Lttb.SumStaysInside | core/ab-pipeline/src/lttb.rs:37-39 | The running sum of a bucket's time stamps stays inside 64 bits if the largest magnitude times the bucket size does. |
| Lttb.Downsample | core/ab-pipeline/src/lttb.rs:10-66 | All points when there is nothing to drop, otherwise exactly m, the downsampling along the even buckets. |
| Lttb.CutBounds | core/ab-pipeline/src/lttb.rs:20-28 | The cursor loop computes the bucket bounds. |
| Lttb.Select | core/ab-pipeline/src/lttb.rs:30-65 | Each point chosen is the first one of its bucket to span the largest triangle. |
| Lttb.FirstLargest | core/ab-pipeline/src/lttb.rs:48-57 | The inner loop finds the first maximiser. |
| LttbGeometry.DeviationsOfSum | core/ab-pipeline/src/lttb.rs:37-40 | The deviations of values from any number add up to their sum less that number for each. |
| LttbGeometry.MeanBalances | core/ab-pipeline/src/lttb.rs:37-42 | The mean point of a bucket is the one point from which the deviations of its times and of its values add up to zero. |
| LttbGeometry.LooksAtMean | core/ab-pipeline/src/lttb.rs:34-46 | A bucket looks at that point of the bucket behind it, and the last bucket at the last point of the curve. |
| LttbGeometry.AreaIsBaseTimesGap | core/ab-pipeline/src/lttb.rs:48-53 | The area of a point is the horizontal base of its triangle times its gap from the line through the other two corners. |
| LttbGeometry.AreaOverVerticalBase | core/ab-pipeline/src/lttb.rs:48-53 | Over a vertical base the area is the height of the base times the distance in time. |
| LttbGeometry.ChosenIsFarthest | core/ab-pipeline/src/lttb.rs:48-61 | A point is chosen iff it is the first one of its bucket farthest from the line through the point chosen before and the point the bucket looks at. |
| LttbGeometry.PointOnLineIsChosenOnlyFromLine | core/ab-pipeline/src/lttb.rs:48-61 | A point on that line is chosen only from a bucket that lies on it as a whole. |
| LttbGeometry.SelectionIsFarthest | core/ab-pipeline/src/lttb.rs:30-65 | Every point of a downsampling but the ends is such a farthest point. |
| LttbGeometry.TiltKeepsSelection | core/ab-pipeline/src/lttb.rs:30-65 | Adding a line to the values leaves the chosen points as they are. |
| Query.PartitionPoint | core/ab-pipeline/src/query.rs:55-56 | The position splits the sorted column by the bound. |
| Query.WantedIsWindow | core/ab-pipeline/src/query.rs:51-62 | Filtering accepted records and sorting them is the window of the frozen columns. |
| Query.QueryOne | core/ab-pipeline/src/query.rs:55-76 | One slice answers for the window: absent iff empty, exact within the budget, otherwise its downsampling. |
| Query.QueryRef | core/ab-pipeline/src/query.rs:51-77 | The same for a requested series of a store in any state. |
| Query.RunQuery | core/ab-pipeline/src/query.rs:44-79 | The response has, in request order, one allowed answer per requested series and omits the series without points. |
| Query.ResponseByPosition | core/ab-pipeline/src/query.rs:44-79 | The slice of a series with points stands behind exactly the slices of the non-empty series requested before it. |
| Query.ResponseIsUnique | core/ab-pipeline/src/query.rs:44-79 | Store contents and request determine the whole response. |
| Query.AnswerIsUnique | core/ab-pipeline/src/query.rs:55-76 | Two slices that answer for the same points are equal. |
| Query.BudgetIsKeptIff | core/ab-pipeline/src/query.rs:64-69 | A slice stays within the budget iff the window fits or the budget is at least 3, and then has exactly that many points. |
| Query.BudgetOfTwoIsExceeded | core/ab-pipeline/src/query.rs:64-69 | A window of three points answered whole for a budget of two. |
| Query.SliceKeepsEndsAndOrder | core/ab-pipeline/src/query.rs:61-76 | A slice for a sorted window starts and ends with its end points and ascends in time. |
| Query.ResponseKeepsEndsAndBudget | core/ab-pipeline/src/query.rs:44-79 | In every response the slice of a series with points in the window shows the first and the last of them, ascends in time, keeps a budget of 3 or more, or 50000 where none is given, and shows a window that fits as a whole. |
| Rpc.SeqValidator.Reset | core/ab-host/src/rpc.rs:228-230 | A parse starts to expect number 0 again. |
| Rpc.SeqValidator.Accept | core/ab-host/src/rpc.rs:233-247 | Only the next number of the file is accepted; a rejected batch changes nothing. |
| Rpc.SubscriberSeesFirstMessages | core/ab-host/src/rpc.rs:187-207 | A new subscription that is not read holds the first 1024 messages fanned out since, in order, and takes nothing from the others. |
| Rpc.NotificationFan.Subscribe | core/ab-host/src/rpc.rs:187-191 | The same of a subscription made on the fan, for every list of messages to come. |
| Rpc.NotificationFan.FanOut | core/ab-host/src/rpc.rs:194-207 | Every open subscriber is offered the message, closed ones go, full queues are counted. |
| Rpc.FanOutConserves | core/ab-host/src/rpc.rs:194-207 | Queued plus dropped messages grow by one per open subscriber and no queue exceeds 1024. |
| Rpc.RunKeepsChannelInv | core/ab-host/src/rpc.rs:321-512 | The routing invariants hold after every run. |
| Rpc.KnownIdsStep | core/ab-host/src/rpc.rs:321-512 | Routing and draining move ids from pending to answered; only a caller's own steps add or forget one. |
| Rpc.RoutingIsSound | core/ab-host/src/rpc.rs:321-512 | No two calls that got an id share it, failed ones included; a call is completed at most once, an outcome not made up by the host came in a frame with the call's id, and a waiting call is pending or answered. |
| Rpc.FirstResponseIsTheAnswer | core/ab-host/src/rpc.rs:470-512 | In every run the first response with the id of a pending call that was not drained or given up is the answer of the call, stays it whatever follows, and is what the call returns. |
| Rpc.LiveAnswersAreThePlugins | core/ab-host/src/rpc.rs:401-407 | Until a channel is marked broken no outcome is made up for a pending call, no call is refused, and one fails only on a closed writer. |
| Rpc.OnlyTimeoutsAreMadeUp | core/ab-host/src/rpc.rs:361-374 | On such a channel a call gets a made-up outcome only by its own time-out. |
| Rpc.CallCanReturn | core/ab-host/src/rpc.rs:321-374 | On every live channel a new call can be made and return any outcome the plugin sends. |
| Rpc.CallCanEnd | core/ab-host/src/rpc.rs:321-374 | In every reachable state each call can end by its own steps, without the plugin and without any other call. |
| Rpc.CallCanFail | core/ab-host/src/rpc.rs:344-354 | A call that finds the writer closed fails and takes its entry along, and nothing else changes. |
| Rpc.DrainedCallCanFail | core/ab-host/src/rpc.rs:355-360 | A call drained before its request was written fails, and its one-shot says that the channel is broken. |
| Rpc.DrainCompletesPending | core/ab-host/src/rpc.rs:401-407 | A drain completes exactly the entries pending at that moment. |
| Rpc.DrainMissesOnlyEarly | core/ab-host/src/rpc.rs:401-407 | After the drain of a broken channel only callers that were between their check and the table can be left waiting. |
| Rpc.DrainCanMissEarly | core/ab-host/src/rpc.rs:327-339 | Every such caller can be left waiting. |
| Rpc.DrainMissesIff | core/ab-host/src/rpc.rs:327-407 | Both together: in every run a drain can miss a caller iff it was early. |
| Rpc.DrainCanMissACall | core/ab-host/src/rpc.rs:327-339 | A run in which a call registers behind the drain and stays pending on a dead channel. |
| Batches.StoreTakesNumbered | core/ab-pipeline/src/store.rs:343-411 | A numbered stream is appended whole and freezes exactly on its number of records. |
| HostBridge.FanIsFanOut | core/ab-host/src/rpc.rs:194-207 | The subscription of the forward task is served as `NotificationFan.FanOut` serves any subscriber. |
| HostBridge.MovesKeepInv | core/ab-host/src/session.rs:851-866 | Validated batches are numbered from zero, only such batches are under way, the store holds the first of them. |
| HostBridge.StepMoves | core/ab-engine/src/host_bridge.rs:153-172 | What each step of pump, forward task and sink does to a file's batches; only a drop or the end of the sink loses one. |
| HostBridge.ForwardKeepsUnderWay | core/ab-engine/src/host_bridge.rs:77-101 | Passing an event on neither loses nor adds a batch of the file. |
| HostBridge.StoredIsAPrefix | core/ab-engine/src/host_bridge.rs:127-181 | Whatever is dropped, the store always holds exactly the first records the plugin sent. |
| HostBridge.ChannelsStayBounded | core/ab-engine/src/pipeline_bridge.rs:1124-1124 | Between fan-out and store a parse never holds more than 1281 notifications: 1024 in its subscription, one in hand, 256 in the channel of the sink. |
| HostBridge.ReadyMeansNothingMissing | core/ab-engine/src/pipeline_bridge.rs:1165-1303 | A ready file holds the declared number of first records; with the true total nothing is missing. |
| HostBridge.UndroppedParseIsReady | core/ab-engine/src/host_bridge.rs:153-180 | Without a drop and with the true total the import is ready with every record. |
| CleanParse.CleanParseCanBeReady | core/ab-engine/src/host_bridge.rs:127-181 | Everything a plugin sends without a fault can be read, forwarded and stored: some run ends ready with every record and without a drop. |
| CleanParse.ResponseTellsTheTruth | core/ab-engine/src/host_bridge.rs:127-181 | The outcome of the parse call is the first answer of the plugin or that of an abandoned call, and never changes. |
| CleanParse.DropsAreCounted | core/ab-engine/src/host_bridge.rs:77-101 | The drop count is the number of refused deliveries, at most one, and one only after the sink has panicked. |
| CleanParse.VerdictTellsTheTruth | core/ab-engine/src/pipeline_bridge.rs:1165-1303 | In every run: plugin failures were sent by the plugin or are abandoned calls, store failures come of a panic or a lost batch, and ready means that the call gave exactly the total stored without an error. |
| CleanParse.ParseCanFinish | core/ab-engine/src/host_bridge.rs:127-181 | Forward task and sink cannot block one another: from every state, full channels and a closed sink included, a parse whose plugin says nothing more can come to its verdict. |
| CleanParse.PanicFailsTheImport | core/ab-engine/src/pipeline_bridge.rs:1202-1218 | Whatever was stored, a panic of the sink can bring a parse that the plugin answered with a total to the verdict of a store failure. |
| CleanParse.SessionCanEnd | core/ab-host/src/rpc.rs:450-512 | A session can end at any moment, and nothing more of it is read then. |
| Subscription.RunKeepsStored | core/ab-engine/src/host_bridge.rs:127-181 | In every run from the subscription on, with resets of the validator anywhere, what is stored are the records of some of the batches read, in order. |
| Subscription.ResetStartsTheParse | core/ab-host/src/session.rs:439-466 | With the reset right behind the subscription, whatever was validated before, the runs are exactly those of a parse that starts with number 0. |
| Subscription.SubRecords | core/ab-pipeline/src/store.rs:393-411 | Batches left out show in the number of records, unless they are empty. |
| Subscription.ReadyMeansNothingMissing | core/ab-host/src/session.rs:439-466 | So an import that becomes ready with the true total of everything written since the subscription holds all of it. |
| HostBridge.NeverBackpressure | core/ab-engine/src/pipeline_bridge.rs:1734-1744 | With the drop count of the parse itself the back-pressure verdict is unreachable; the count verdict falls exactly when the sink counted another number than declared. |
| HostBridge.BackpressureIff | core/ab-engine/src/pipeline_bridge.rs:1234-1245 | With any drop count found in the adapter table: the verdict falls iff the declared total is wrong, the parse itself counted no drop and the count found is positive. |
| HostBridge.StaleCountMisleads | core/ab-engine/src/pipeline_bridge.rs:626-642 | A run that loses nothing and is still found guilty of back-pressure by a stale count. |
| EndToEnd.ReadyMeansWholeStream | core/ab-engine/src/pipeline_bridge.rs:1124-1303 | Whatever a plugin writes from the subscription on, progress included: if its answers declare the true total, an import that becomes ready holds all of its records in order. |
| EndToEnd.ParsePassIsAJob | plugins/builtin-csv/src/engine.rs:506-611 | Everything the CSV parse pass sends, reports included, is such an output and carries exactly the stream of the file's records. |
| EndToEnd.ReadyMeansWholeFile | plugins/builtin-csv/src/engine.rs:506-611 | A CSV import that becomes ready holds exactly the records of the good rows. |
| EndToEnd.ImportedRowsAreWanted | core/ab-pipeline/src/query.rs:51-62 | After a ready CSV import, the points a query looks for are the (time stamp, value) pairs of the metric's column on the good rows in the window, stably sorted. |
| EndToEnd.QueriesSeeWholeFile | core/ab-pipeline/src/query.rs:44-79 | After such an import, every response shows for each requested metric of the file exactly the (time stamp, value) pairs of the good rows in the window, stably sorted, or their downsampling; a metric is omitted iff it has no such row. |
| EndToEnd.EveryRowIsAPoint | core/ab-pipeline/src/store.rs:359-383 | The pairs of the good rows, added over the metrics, are all the records of the file: none is undeclared or counted twice. |
| EndToEnd.QueriesShowTheTable | core/ab-pipeline/src/query.rs:44-79 | A printed table that was imported and found ready is shown again: every requested metric is answered with the times and numbers of its columns in the window. |
| PipelineBridge.RunKeepsInv | core/ab-engine/src/pipeline_bridge.rs:994-1396 | The protocol invariants hold after every run. |
| PipelineBridge.ObservedImportLeavesNothing | core/ab-engine/src/pipeline_bridge.rs:525-717 | After any interleaving with calls that observed the job the file is in no table, unless a cancel that gave up waiting won the swap before the import was done; the discard runs at most once. |
| PipelineBridge.UndisturbedImport | core/ab-engine/src/pipeline_bridge.rs:994-1396 | Undisturbed, a ready file is in all four tables and a failed one in none. |
| PipelineBridge.CoveredStep | core/ab-engine/src/pipeline_bridge.rs:549-552 | What an unload has cleared stays clear, or the import will clear it. |
| PipelineBridge.BodyAlone | core/ab-engine/src/pipeline_bridge.rs:994-1383 | Undisturbed, each stage of the import leaves exactly its tables. |
| PipelineBridge.SwapLeavesResidueIff | core/ab-engine/src/pipeline_bridge.rs:585-593 | In every run: after a cancel has won the swap a trace of the file can remain iff the import then still has a table to add. |
| PipelineBridge.TimeoutLeavesResidue | core/ab-engine/src/pipeline_bridge.rs:585-593 | A run in which a cancel that gave up waiting leaves the file in two tables. |
| PipelineBridge.UnloadIsLostIff | core/ab-engine/src/pipeline_bridge.rs:525-552 | In every run: an unload that found the file can end with the file still in a table, without an early discard by a cancel, iff the job was not registered when it looked for it. |
| PipelineBridge.EarlyUnloadIsLost | core/ab-engine/src/pipeline_bridge.rs:525-552 | A run in which an unload before the registration leaves a ready file that is missing from the index. |
| ImportOutcome.OutcomeTellsTheTruth | core/ab-engine/src/pipeline_bridge.rs:994-1396 | In every run: ready means that plugin, store and budget refused nothing, failed that one of them did, and without a cancelled job it is one of the two. |
| ImportOutcome.ImportCanBeReady | core/ab-engine/src/pipeline_bridge.rs:994-1383 | Left alone an import can become ready, with the file in all four tables. |
| ImportOutcome.CancelInTimeCancels | core/ab-engine/src/pipeline_bridge.rs:1011-1309 | A job cancelled before its last look at the flag ends cancelled, whatever its plugin says. |
| ImportOutcome.LateCancelIsIgnored | core/ab-engine/src/pipeline_bridge.rs:1318-1383 | A cancel behind that look does not change the outcome. |
| ImportOutcome.CancelledImportEnds | core/ab-engine/src/pipeline_bridge.rs:1011-1027 | Whatever plugin, store and other calls do, a cancelled import has returned after at most 24 more of its own actions; so no load is tried again, however often the plugin would have it. |
| ImportOutcome.PatientCancelsLeaveNothing | core/ab-engine/src/pipeline_bridge.rs:570-593 | As long as no cancel gives up waiting, no discard starts early and a call that observed the job leaves nothing behind. |
| ImportOutcome.NoJobStaysRegistered | core/ab-engine/src/pipeline_bridge.rs:525-717 | Behind an import that has returned, a cancel or an unload that saw the job, no job is registered for the file. |
| MemoryBudget.OthersKeepCheck | core/ab-engine/src/pipeline_bridge.rs:1318-1320 | No step of others can make a check miss bytes of an earlier accepted file. |
| MemoryBudget.AcceptedFilesFitTheBudget | core/ab-engine/src/pipeline_bridge.rs:1318-1355 | At every moment of every run the accepted files together fit the budget. |
| MemoryBudget.CheckDecides | core/ab-engine/src/pipeline_bridge.rs:1318-1355 | In every run a check turns its file down only if the resident files exceed the budget at its end, and must if they did at its start. |
| MemoryBudget.FileBytesAreAppends | core/ab-pipeline/src/store.rs:366-379 | The bytes that checks add up are those appended to the file. |
| MemoryBudget.LoneFileIsChecked | core/ab-engine/src/pipeline_bridge.rs:1318-1355 | A file alone in the store can be checked, and passes iff it fits. |
| MemoryBudget.UnloadFreesBytes | core/ab-pipeline/src/store.rs:463-476 | A file can be unloaded while no check runs, and the total falls by exactly its bytes. |
| ByteLines.WrittenLines | core/ab-plugin-rt/src/frame.rs:73-78 | Frames without line feeds are told apart again. |
| PluginFrame.FrameReader.ReadFrame | core/ab-plugin-rt/src/frame.rs:25-68 | The result depends on the stream alone; the buffer never exceeds 8 MiB + 8192 bytes. |
| PluginFrame.FrameReader.ReadAll | core/ab-plugin-rt/src/frame.rs:25-68 | The frames of a whole stream up to the first error. |
| PluginFrame.DeliversAcceptablePrefix | core/ab-plugin-rt/src/frame.rs:28-68 | Delivered are the lines up to the first that is too long, ends in a carriage return or is not UTF-8; an unterminated rest counts as a line. |
| PluginFrame.EndNamesItsCause | core/ab-plugin-rt/src/frame.rs:28-68 | Each way in which reading ends occurs iff the line behind the delivered ones has that fault: too long, else a carriage return, else not UTF-8; the end iff there is no such line. |
| PluginFrame.RoundTrip | core/ab-plugin-rt/src/frame.rs:25-78 | Acceptable frames come back in order, then the end. |
| HostFrame.FrameReader.NextFrame | core/ab-host/src/rpc.rs:79-107 | The buffer and cursor loop computes `Next`. |
| HostFrame.FrameReader.Consume | core/ab-host/src/rpc.rs:83-87 | Dropping a used-up buffer keeps the unread bytes. |
| HostFrame.NextAnswersFirstLine | core/ab-host/src/rpc.rs:79-124 | Under every cutting the call answers for the first line, with a fixed verdict unless the line is borderline; no delivered line exceeds 8 MiB + 8191 bytes. |
| HostFrame.CutBeforeLf | core/ab-host/src/rpc.rs:90-92 | A cutting that rejects a line over the limit. |
| HostFrame.CutAtLimit | core/ab-host/src/rpc.rs:81-92 | A cutting that accepts a borderline line. |
| HostFrame.IndependentIffNotBorderline | core/ab-host/src/rpc.rs:79-107 | The first frame is independent of the reads iff its line is not borderline. |
| HostFrame.SomeLineDependsOnReads | core/ab-host/src/rpc.rs:79-107 | There is such a line. |
| HostFrame.ReadAll | core/ab-host/src/rpc.rs:79-124 | The loop that reads on behind values and tolerated invalid lines gives the results of `Session`, for every stream and cutting. |
| HostFrame.SessionGivesVerdicts | core/ab-host/src/rpc.rs:79-124 | Unless the line that ends it is borderline, a session gives each line its own verdict, in order, under every cutting. |
| HostFrame.ToleranceIsExact | core/ab-host/src/session.rs:877-897 | Text that is not JSON is read over exactly as often as it is tolerated and then ends the session; all other text before gives its values in order. |
| HostFrame.NoTextEndsTheSession | core/ab-host/src/rpc.rs:93-124 | A line that is no text ends the session at once, told apart from one that is too long. |
| HostFrame.TwoSessions | core/ab-host/src/rpc.rs:79-107 | Otherwise two cuttings with different results are built. |
| HostFrame.SessionsAgreeIff | core/ab-host/src/session.rs:877-897 | All results of a session are independent of the reads iff the line that ends it is not borderline. |
| HostFrame.RoundTrip | core/ab-plugin-rt/src/frame.rs:73-78 | What `write_frame` wrote is read back in order under every cutting, then the end. |
| NdjsonTransport.Transport.Fill | sdk/dotnet/NdjsonTransport.cs:58-72 | Refilling the read buffer keeps the stream. |
| NdjsonTransport.Transport.TakeSegment | sdk/dotnet/NdjsonTransport.cs:116-140 | A segment is taken iff the line stays without carriage return and within the limit. |
| NdjsonTransport.Transport.TakePart | sdk/dotnet/NdjsonTransport.cs:74-83 | One pass of the loop takes the line up to its line feed or the end of the buffer. |
| NdjsonTransport.Transport.DecodeLine | sdk/dotnet/NdjsonTransport.cs:142-153 | Copying the segments gives the line, which is decoded as one piece. |
| NdjsonTransport.Transport.ReadLine | sdk/dotnet/NdjsonTransport.cs:51-85 | The result depends on the stream alone, not on the reads. |
| NdjsonTransport.RoundTrip | sdk/dotnet/NdjsonTransport.cs:88-105 | Acceptable lines come back as they were written. |
| Dispatch.SlotGuardsTheFile | core/ab-plugin-rt/src/dispatch.rs:106-379 | Loaded files are the table plus the file in the running parse; no thread misses its file, at most one is at work; every answer to every request is the right one for what is loaded and parsed at that moment, but for `parse` on the file being parsed. |
| Dispatch.ParseDeniedIff | core/ab-plugin-rt/src/dispatch.rs:205-218 | `parse` answers "not loaded" iff the file is not loaded or is being parsed. |
| Dispatch.ParseCanDenyALoadedFile | core/ab-plugin-rt/src/dispatch.rs:205-240 | A run in which that happens. |
| Dispatch.LoadedChangesOnlyByRequest | core/ab-plugin-rt/src/dispatch.rs:148-351 | A file comes to be loaded only by a load that succeeds and goes only by an unload; a load answers as it went. |
| Dispatch.ParseEnds | core/ab-plugin-rt/src/dispatch.rs:236-268 | A spawned parse can run to its end in every reachable state, and gives back file and slot. |
| Dispatch.CancelReachesTheParse | core/ab-plugin-rt/src/dispatch.rs:352-379 | While a parse holds the slot its flag is set iff a cancel of its file has come in meanwhile. |
| Jobs.TerminalStateIsFinal | core/ab-server/src/jobs.rs:204-262 | A terminal state never changes. |
| Jobs.CancelledWhileQueuedStartsNothing | core/ab-server/src/jobs.rs:126-262 | A queued job cancelled through its flag starts no path; no flag and no in-flight path survive its run. |
| Jobs.BlindCancelStartsPaths | core/ab-server/src/jobs.rs:95-111 | A run in which a cancel before the flag shows the job cancelled while a path starts. |
| Jobs.FlipLeaksIff | core/ab-server/src/jobs.rs:126-219 | In every run: a job turned over while queued can still import a path iff it has paths and its flag is not set. |
| Jobs.OnlyBlindCancelsLeak | core/ab-server/src/jobs.rs:126-262 | A path can be imported in a job shown as cancelled only behind a cancel that missed the flag. |
| Jobs.FinishedJobTellsTheTruth | core/ab-server/src/jobs.rs:150-190 | In every ended run: completed means every path imported without a failure, failed a failed import, cancelled that somebody cancelled; left alone a job completes iff no import fails. |
| Jobs.FlagStopsTheJob | core/ab-server/src/jobs.rs:146-190 | Once the flag of an undecided job is set it starts no path but one already looked at, and does not complete. |
| Jobs.RunningJobCanBeCancelled | core/ab-server/src/jobs.rs:204-232 | A job that imports a path can be cancelled: the path is found, no other is started and the job ends as cancelled. |
| Jobs.FlaggedWhileWaitingNeverRuns | core/ab-server/src/jobs.rs:126-144 | A job whose flag is set while it waits for its permit is never shown as running, imports nothing and ends cancelled. |
| Jobs.JobCanComplete | core/ab-server/src/jobs.rs:85-190 | Any number of paths can be imported to the end. |
| Jobs.InflightIsListed | core/ab-server/src/jobs.rs:150-172 | A path being imported is listed unless somebody has taken it. |
| CsvLine.SplitLine | plugins/builtin-csv/src/csvline.rs:6-33 | Both copies of the loop compute the split. |
| CsvLine.SplitUndoesPrint | plugins/builtin-csv/src/csvline.rs:6-33 | Splitting undoes RFC 4180 printing (section 2, rules 5 to 7) for every delimiter but the quote. |
| CsvLine.CopiesAgreeIff | plugins/aibench-llama/src/csvline.rs:23-51 | The two copies agree on a line iff no quote follows other text in an unquoted field. |
| CsvLine.CopiesDiffer | plugins/aibench-llama/src/csvline.rs:40-47 | The line `a"b` and what each copy makes of it. |
| CsvLine.Diverged | plugins/aibench-llama/src/csvline.rs:40-47 | Once the copies differ their results never meet again. |
| CsvEngine.LoadPass | plugins/builtin-csv/src/engine.rs:322-384 | The hint is good rows times metrics, every other data row is counted as bad, the time range is the least and greatest time stamp of the good rows. |
| CsvEngine.RangeIsExact | plugins/builtin-csv/src/engine.rs:322-384 | There is a time range iff there is a good row, its ends are time stamps of good rows and no good row lies outside. |
| CsvEngine.Parse.constructor | plugins/builtin-csv/src/engine.rs:511-522 | A parse starts with one progress report and nothing taken; the text columns are as the file has them. |
| CsvEngine.Parse.Report | plugins/builtin-csv/src/engine.rs:529-533 | A report counts all records taken so far and disturbs neither batches nor buffer. |
| CsvEngine.Parse.SendFull | plugins/builtin-csv/src/engine.rs:570-578 | A full buffer becomes the next numbered batch. |
| CsvEngine.Parse.Push | plugins/builtin-csv/src/engine.rs:562-579 | The records taken grow by one, and the buffer stays below a batch. |
| CsvEngine.Parse.SampleRow | plugins/builtin-csv/src/engine.rs:581-598 | A good row is sampled by every text column that is not given up and finds a text in it. |
| CsvEngine.Parse.PushBad | plugins/builtin-csv/src/engine.rs:185-190 | A bad row is counted, and the first ten are kept with line and reason. |
| CsvEngine.Parse.PushLine | plugins/builtin-csv/src/engine.rs:534-600 | A good row adds its records, one per metric column, and its samples; any other data row adds a bad one; nothing else counts. |
| CsvEngine.Parse.StreamLines | plugins/builtin-csv/src/engine.rs:523-601 | The lines up to the first one in front of which the cancel flag is seen are streamed, no more and no less, with exactly the reports that are due in between. |
| CsvEngine.Parse.Close | plugins/builtin-csv/src/engine.rs:602-607 | The last batch closes the stream. |
| CsvEngine.StreamHasBatches | plugins/builtin-csv/src/engine.rs:571-607 | A complete stream has a full batch for every 4000 records and one last batch with the rest, which may be none. |
| CsvEngine.Parse.Run | plugins/builtin-csv/src/engine.rs:506-611 | An uncancelled parse streams all records in full batches and one last and leaves count and samples of the bad rows, the text columns and all reports of the whole file; a cancelled one sends prefixes; every report is less than a batch ahead of what was sent before it. |
| CsvReports.ReportsKeepPace | plugins/builtin-csv/src/engine.rs:519-533 | There are more reports than a 20000th of the lines read, each shows more bytes and no fewer records than the one before, and the first shows nothing. |
| CsvReports.WithinHundred | plugins/builtin-csv/src/engine.rs:529-533 | As long as a line is unread no report shows more than 100 percent. |
| CsvReports.PassesHundredIff | plugins/builtin-csv/src/engine.rs:517-533 | A parse shows more than 100 percent iff a report is due in front of the last line and the content is not empty. |
| CsvReports.TwoHundredPercent | plugins/builtin-csv/src/engine.rs:517-533 | One line of one byte reached two seconds after the start: 200 percent. |
| CsvEngine.CrlfIsLf | plugins/builtin-csv/src/engine.rs:534-534 | Lines that end in a carriage return and a line feed give the same text as lines that end in a line feed. |
| CsvEngine.BadIsCounted | plugins/builtin-csv/src/engine.rs:185-190 | The count is that of the bad rows, and the samples are as many up to ten. |
| CsvEngine.ColumnsSampleTheirCells | plugins/builtin-csv/src/engine.rs:581-598 | A text column has sampled exactly its own texts on the good rows, in file order. |
| CsvEngine.KeyValuesIff | plugins/builtin-csv/src/engine.rs:612-628 | After a first parse a column answers iff it has at most ten different texts, and its answer is the newest at every instant iff no cell was left out and every cell that an earlier time follows recurs behind it. |
| KeyValues.ColumnHolds | plugins/builtin-csv/src/engine.rs:581-598 | A column is given up iff it has more than ten different texts; until then it holds its first 5000 cells. |
| KeyValues.ShowsNewestIff | plugins/builtin-csv/src/engine.rs:612-628 | The exact condition for a list of cells. |
| KeyValues.OrderedShowsNewest | plugins/builtin-csv/src/engine.rs:612-628 | Up to 5000 cells in time order meet it. |
| KeyValues.OlderValueIsShown | plugins/builtin-csv/src/engine.rs:619-620 | Two rows in the wrong order: at the later instant the older text is shown. |
| CsvEngine.RowsOfBothPasses | plugins/builtin-csv/src/engine.rs:255-267 | The rows of the two passes differ by the header at most. |
| CsvEngine.PassesAgreeIff | plugins/builtin-csv/src/engine.rs:535-537 | The emitted number is the announced one unless a header off line 1 reads as a good row and there is a metric. |
| CsvEngine.TextHeaderAgrees | plugins/builtin-csv/src/engine.rs:231-237 | With a header line of which no cell is numeric, as detection demands, the passes always agree. |
| CsvEngine.HeaderOffLineOne | plugins/builtin-csv/src/engine.rs:535-537 | An empty line, `1,2` configured as the header and `3,4`: the header is emitted as data. |
| CsvEngine.PointsAreThoseOfTheRows | plugins/builtin-csv/src/engine.rs:534-580 | For each metric, what the store keeps of the emitted records are the (time stamp, value) pairs of that metric's column on the good rows, in file order. |
| CsvTable.PrintedRowIsRead | plugins/builtin-csv/src/engine.rs:160-185 | A printed row has the time of the cell in its time column; an error names the first fault: number of cells, no time column, time, number. |
| CsvTable.GoodRowsSaySomething | plugins/builtin-csv/src/engine.rs:160-185 | Good rows are exactly those of a printed table that hold a time and numbers. |
| CsvTable.TableIsRead | plugins/builtin-csv/src/engine.rs:534-580 | The records of a printed table are its numbers in order, each with the metric of its column and the time of its row, and nothing else. |
| CsvEngine.StoreTakesStream | plugins/builtin-csv/src/engine.rs:506-611 | The store takes the stream with nothing undeclared and freezes on the returned total. |
| EmitContext.Context.Create | sdk/python/analysisbuddy/context.py:40-53 | Only batch sizes from 1000 to 8000 are accepted. |
| EmitContext.Context.EmitRecords | sdk/python/analysisbuddy/context.py:109-123 | Valid records are taken in order; batches are cut with the record that fills them. |
| EmitContext.Context.Flush | sdk/python/analysisbuddy/context.py:190-205 | The buffer becomes the next numbered batch. |
| EmitContext.Context.Finish | sdk/python/analysisbuddy/context.py:91-94 | One last batch with the rest, marked done. |
| EmitContext.StoreTakesFinished | sdk/python/analysisbuddy/context.py:91-123 | The finished stream holds all records taken, in batches within the size, and the store takes it. |
| Stderr.LineReader.ReadLine | core/ab-host/src/session.rs:1319-1355 | Under every cutting the first line comes out as its first 64 KiB, marked iff it was longer. |
| Stderr.LineReader.TakePart | core/ab-host/src/session.rs:1335-1349 | Only what fits is kept of a block. |
| Stderr.StderrSink.Append | core/ab-host/src/health.rs:246-257 | The ring is the last 1 MiB of everything appended. |
| Stderr.StderrSink.TailSummary | core/ab-host/src/health.rs:266-270 | The summary is the text of the end of everything appended. |
| Stderr.KeptIsLongest | core/ab-engine/src/events.rs:308-321 | What is kept is the longest suffix within the budget. |
| Stderr.KeptSnoc | core/ab-engine/src/events.rs:308-321 | Evicting step by step gives the same as evicting from the whole history. |
| Stderr.LinesWeighTheirTexts | core/ab-engine/src/events.rs:308-321 | Lines weigh their characters and 64 bytes each. |
| Stderr.PluginLogBuffer.Push | core/ab-engine/src/events.rs:308-321 | The queue is the longest suffix of a plugin's lines within the budget; other plugins keep theirs. |
| Stderr.PluginLogBuffer.Tail | core/ab-engine/src/events.rs:324-338 | The newest lines, up to the limit. |
| ProgressThrottle.Throttle.Accept | core/ab-engine/src/events.rs:174-191 | A final or due update comes out, any other replaces what waits; other files keep theirs. |
| ProgressThrottle.Throttle.Flush | core/ab-engine/src/events.rs:194-205 | Everything that waits comes out, each file's update exactly once. |
| ProgressThrottle.ThrottleIsFaithful | core/ab-engine/src/events.rs:174-205 | Over every run of a file: a subsequence of the updates, final ones at once, others one window apart and held back only within a window, and behind a flush the last value out is the last value in. |
| ProgressThrottle.ThrottleFollowsRuns | core/ab-engine/src/events.rs:154-205 | All that ever came out of a throttle for a file, over any calls for any files, are the emissions of the run of its own events. |

## Left out

- Process spawning, pipes, the UI, HTTP routing and authentication: input and output around the path.
- Integer widths: counters are unbounded; only the cast of a point index to 32 bits is modelled.
- Store.FileData.FreezeMetric: promises nothing of the side tables of a series with more than 2^32 points, where the cast makes keys collide; columns and counters are promised for every length.
- Store.FileData.Conservation: tags and raw lines found in the tables are tied to the counters only while no series has more than 2^32 points.
- Floating-point rounding, including the area comparison of LTTB: arithmetic is over reals, and sums of time stamps are unbounded (`Lttb.SumStaysInside` says when 64 bits suffice).
- UTF-8 checks, JSON text, GBK and UTF-16 decoding, date and number formats, and the text conversion behind `NdjsonTransport` and `Stderr`: parameters of the model.
- The library's sort and its partition point: the sort is modelled by its result on the key (time stamp, index), the partition point by a binary search.
- Timers: timeouts, watchdog and retry delays are steps that may happen at any time; heartbeats of the SDK are left out.
- I/O errors of reads, lock poisoning, allocation failure and panics other than that of the sink task.
- HostBridge: its runs start at the reset of the validator; runs from the subscription on are those of `Subscription`. An unload of the file during the parse is not modelled. Which adapter the import finds for the drop count is a parameter of the verdict.
- PipelineBridge: one file at a time, because file ids are fresh; the store's own locks are the steps, its contents are modelled in `Store`. Shared tables are values in the protocol states, so aliasing of the shared handles is not modelled.
- MemoryBudget: whether an import unloads its file when its check fails is part of `PipelineBridge`; here unloading may happen at any time.
- Jobs: one job; the semaphore only delays its run. Removal of uploaded copies is left out.
- Dispatch: contents of loaded files and `last_metrics`; shutdown and process exit.
- CsvEngine: the choice of delimiter, header, time column, metric ids and text columns is a parameter; names of columns are left out. When a heartbeat is due and how many bytes a line has are parameters, too; the byte count of a report is left out.
- EmitContext: sanitising of a record is a parameter; only the parse thread emits.
- `time_range`, warnings, file summaries, diagnostics, session files and preset handling: easy members.
- `can_handle` scoring, plugin discovery, installation and the state-machine table of a session: readable branch by branch.
