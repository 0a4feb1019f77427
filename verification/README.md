# hperf: measurement, delivery and analysis

A Dafny model of hperf's measurement pipeline: the test engine of a server, the
flush to file and live connections, the client that collects and prints, the
download of saved tests, and the percentile analysis. `dafny verify
dfyconfig.toml` checks everything.

## How the model is built

Code that several goroutines run is modelled as state machines whose actions
are the goroutines' atomic steps. An action that is not enabled leaves the
state alone, so a sequence of actions is one arbitrary interleaving, and a
statement about `Exec(Start(...), acts)` is one about every run.

- `Engine`, `Tokens`, `Measurement`, `EngineRuns`: per remote host a reader with
  its token channel, dispatcher, senders and body readers, and the harvester.
  A request's body can be read once the request has been counted and sent, also
  after its sender has returned. The harvest is not atomic: the byte swap, the
  four loads without the lock, in any order, and the reset under it are separate
  steps. The mutex is held across separate
  writes, so the harvester may see half of them. The history value `missed`
  holds the samples that were written between a load and its reset.
- `LostSamples`, `PointSamples`, `SampleLedger`: which samples a harvest loses,
  over which samples and bytes a point reports, and where every sample is.
- `RequestCounts`, `ClientCounts`: the cumulative request counts that the points
  carry, and their sum at the client.
- `ByteBounds`, `ClientBytes`: the bytes counted against the requests sent, and
  the byte accounting without wrap-around.
- `Witnesses`, `DeliveredRuns`: short runs from the start of a test that show what
  goes wrong, and that every run of the readers can be delivered to the client.
- `Delivery`, `DeliveryRuns`: error deduplication, the flush, the test file, the
  registered connections, the runner's Done, and the client behind the runner
  connection, whose handlers run in any order. The program ignores failed writes
  to the file; `intact` says that there has been none.
- `Pipeline`: both machines of one server together; where every sample and every
  byte of that server is.
- `Cluster`: any number of servers and the one client behind them, whose handlers
  append to one collection in any interleaving. The statements about what the
  client holds and prints are made here.
- `TestEnd`, `RunEnd`: when Done is sent, what a stop still lets through, and that
  every run whose runners are still connected can be brought to its end, on one
  server and on all of them.
- `Server`, `Payload`, `Client`: the test, the reader, the request body and the
  client's collected responses as objects with the program's fields, each method
  proved against a function of the old state.
- `Refinement`: an uninterrupted run of a machine's steps is what the object's
  method promises; and what servers save in any runs is what gets analysed.
- `RecordFormat`, `PlainCodec`: the file format on bytes, the line scanner, the
  download, both readers of the downloaded file, and one pair of encoders that
  has all the properties asked of them.
- `RealTime`, `Sorting`, `Percentiles`, `CutPoints`, `CutRounding`: the printed
  row, the in-place sort, the four buckets, and float64 cuts with correctly rounded
  division and multiplication (section 4.3.1 of IEEE 754-2019).
- `Lifecycle`, `KeepAlive`, `Mesh`: the counter of hosts doing work, the waiting
  loop, and who measures whom.
- `Folds`, `Records`: sums and extremes that do not depend on order, and the
  records themselves.

## What the code does that its documentation does not say

Each is stated as a theorem about the code as it is.

- A latency sample that is written between a load and the reset of a harvest
  reaches nobody (`Witnesses.LosesSample` is a run); in every run exactly these
  are lost (`LostSamples.LostSamplesExactly`), and `Cluster.ExtremesCompose`
  accounts for all samples with these as their own term.
- A point can show a high without its low (`Witnesses.HighWithoutLow` is a run):
  `PointSamples.LowIsAtMostHigh` says exactly when, by the samples of its reader.
- The `#TX` column is documented as the total number of requests
  (hperf's README.md:117). The code adds up cumulative counts, so one
  request can count twice (`DeliveredRuns.TxcIsTooHigh` is a run of two servers
  and their client). The sum is what was
  last reported of all hosts if and only if the client has at most one point
  about each host from each server (`ClientCounts.TxcOfClient`).
- `--sort` is documented for any metric (hperf's README.md:131); every value but `TTFBH`
  sorts by `RMSH`. Sort key and statistics key always agree.
- The P50 and the P90 cut can be one too low, P50 for 58 points and P90 for 70
  for instance; `CutRounding.MiddleCutsExactly` says for which numbers of points. P10 and P99
  are always exact. With a single point P10 is empty and P50 is not.
- `AnalyzeTest` looks for the error tag one byte late, so it recovers no error
  of a downloaded file, and an empty line makes it slice past the end;
  `RecordFormat.AnalysisExactly` says on which files it succeeds, fails and crashes.
- `DownloadTest` does not wait for handlers that are still to run when it sorts
  and writes; `RecordFormat.WholePath` has their lines as its remainder.
- `initializeClient` can succeed with hosts that never connected, if another one
  connected again in the meantime: this is possible if and only if handlers are
  restarted on errors and there are two hosts or more
  (`Lifecycle.SuccessIsConnectedExactly`). After that nobody drains the done
  channel: when reconnections have filled it, the next host to reconnect blocks
  for good, which is possible if and only if handlers are restarted and there is
  a host (`Lifecycle.NeverBlockedExactly`).
- A server that knows its real IP skips every peer whose address contains it
  (`Mesh.RealIPHidesPeer`); `Mesh.MeshOfServer` says exactly when nothing is skipped.
- A failed write to a test's file is ignored. A flush grows the file by exactly
  its batch if and only if the disk takes every write (`Server.FlushSavesExactly`);
  the file and the live stream agree in runs in which no write has failed
  (`DeliveryRuns.FileIsAllBatches`).
- Errors reported after the last flush stay pending: they are neither sent nor
  saved. `DeliveryRuns.FileIsAllBatches` has them as its remainder.

## Model

| member | source | states |
|---|---|---|
| Cluster.ExtremesCompose | client/client.go:363-410 | In every interleaving of reads, completions, harvest steps, flushes and receives on any number of servers, each of the four extremes over all samples ever recorded on any server is the extreme over the client's one collection and, over all servers, the points under way, the live reader fields and the samples wiped between a load and its reset |
| Cluster.BytesAreConserved | client/client.go:378-380 | In every run of any number of servers, modulo 2^64: all bytes that all body readers counted are the client's TXT plus, over all servers, the bytes of points under way, of the point being made, and left in the readers |
| Cluster.FinishedRun | client/client.go:224-235 | When every server's Done has been read and all handlers have run: the client holds every point of every server once, and its TXT and extremes with what readers still hold are all there was, apart from wiped samples |
| Cluster.ClientHoldsTheFiles | client/client.go:224-235 | Then, if no write to a server's file has failed, the client holds exactly the points and errors of all servers' saved files |
| RunEnd.EveryClusterCanEnd | client/client.go:224-236 | Every run of any number of servers whose runner connections are all open goes on to one that has finished on all of them, with no file harmed on the way: the statements about finished runs are about the continuations of every such run |
| RunEnd.EveryRunCanEnd | server/server.go:476-515 | The same for one server: from any point of harvest, flush, fan-out or client, the steps left lead to a client that is back on Done with all its handlers run, and no accepted error is forgotten |
| RunEnd.ReportedErrorCanArrive | server/server.go:85-100 | An error reported before the errors of a round are taken, under an id that is not pending, is with the client in a continuation |
| RunEnd.StopEndsWork | server/server.go:330-341 | After a stop both sides are cancelled, and in every continuation at most one more batch is made and each reader sends at most n more requests |
| ClientBytes.BytesAreExact | client/client.go:378-380 | In every run in which fewer than 2^64 bytes have been counted nothing wraps: the bytes counted are exactly TXT plus those elsewhere |
| ClientBytes.TxtPerRequest | server/server.go:467-473 | In every run of a request test on any number of servers TXT is at most PayloadSize times the requests that all servers have sent |
| ByteBounds.BytesPerRequest | server/server.go:467-473 | In every run of a request test a server reports at most what its body readers count, which is at most PayloadSize per request sent |
| ByteBounds.RoomInBody | server/server.go:461-472 | In every run a body can put out any number of bytes in a stream test, and up to PayloadSize in all others |
| Cluster.ApplyInv | client/client.go:224-226 | One step of any server or handler keeps every server's invariant and the client's collection a permutation of what came from all servers |
| Pipeline.ExtremesCompose | server/server.go:608-660 | One server's share: the extreme over its samples is the extreme over its points at the client, its points under way, its live fields and its wiped samples |
| Pipeline.BytesAreConserved | server/server.go:461-473 | One server's share, modulo 2^64: the bytes its body readers counted are those of its points at the client, of its points under way, of the point being made, and left in its readers |
| Pipeline.PointsConserved | server/server.go:554-566 | Every point a server made is with the client, in a pending handler, in an unread batch, being flushed or waiting for a flush, exactly once |
| Pipeline.UndeliveredIsInTransit | server/server.go:590-604 | While no write to the runner has failed, every batch is on its connection except the one being sent |
| Pipeline.FinishedRun | client/client.go:233-235 | One server's share once its Done has been read and its handlers have run: nothing of it is under way |
| Pipeline.ErrCountBounded | server/server.go:637 | In every run no point reports more than six pending errors |
| Pipeline.SkippedReaderHidesNothing | server/server.go:614-616 | In every run a reader without stats, with no write in progress, shows only starting values, so skipping it loses no sample |
| Pipeline.ApplyInv | server/server.go:499-514 | One step of the whole system keeps measurement, tokens, delivery and the link between them |
| Pipeline.FlushFollowsHarvest | server/server.go:512-513 | In every run a harvest is under way only in its phase of a round, so a flush carries the points of all readers |
| EngineRuns.ConcurrencyIsBounded | server/server.go:707-732 | In every run each reader has at most n senders, on distinct tokens, and the channel has room for every live sender's deferred send |
| EngineRuns.CancelBoundsWork | server/server.go:738-787 | After a cancel, however many tokens are still handed out, a reader's TXCount grows by at most the number of senders then between the check and the increment, hence by at most n |
| EngineRuns.EveryReaderCanRest | server/server.go:714-732 | In every run a dispatcher has stopped only if the test is cancelled; and a cancelled reader can come to rest without another request, with all n tokens back |
| EngineRuns.UninterruptedHarvest | server/server.go:614-657 | The nine steps of a harvest with nothing in between are the atomic harvest: live values in the point, reader restarted, nothing lost |
| LostSamples.LostSamplesExactly | server/server.go:633-655 | In every run the samples lost, and those about to be by the reset under way, are exactly those written between a load and its reset, so with no harvest under way none is lost if and only if none was written there |
| LostSamples.LostBetweenLoadAndReset | server/server.go:633-655 | Whatever happens between loading an extreme and the reset, the point shows the loaded value and exactly the samples written in between are lost |
| Witnesses.LosesSample | server/server.go:633-655 | A run from the start of a test for any sample: it is recorded, and the point and the live fields show the starting values instead |
| Witnesses.HighWithoutLow | server/server.go:633-636 | A run from the start of a test for any sample: its one point shows the sample as the high and MaxInt64 as the low, with the loads in the order of the code |
| PointSamples.PointsShowTheirSamples | server/server.go:633-655 | In every run each extreme that a point shows is the extreme over the samples written to its reader between the last reset and the load |
| PointSamples.LowIsAtMostHigh | server/server.go:633-636 | In every run, with the loads in any order, the samples behind the low and the high of a point are one the start of the other; its low is at most its high if and only if both have a sample, or the only one that does has the starting value of the other |
| SampleLedger.SamplesAreConserved | server/server.go:442-455 | In every run every sample recorded is, exactly once, among those behind some point, wiped, or still in a reader |
| SampleLedger.PointsShowTheirBytes | server/server.go:620-630 | In every run each point reports the bytes its reader counted between two swaps, modulo 2^64 |
| EngineRuns.RunSound | server/server.go:608-660 | Accounting, token partition and snapshot ownership hold after any sequence of steps |
| Measurement.ApplyMeasured | server/server.go:442-474 | Each single step, of any goroutine, keeps the accounting of all samples and bytes |
| Measurement.ReaderStepAccounts | server/server.go:804-813 | Every write of a sample to an extreme, under the lock but visible to the harvester, is accounted for |
| Measurement.ResetAccounts | server/server.go:649-657 | The reset moves the value seen into the point and only the samples since the snapshot into the lost ones |
| Measurement.SwapMeasured | server/server.go:620-630 | Swapping the byte counter moves its bytes into the point being made |
| Tokens.PartitionKept | server/server.go:714-732 | Channel, dispatcher and live senders partition the ids 1 to n after every step; each exit path of a sender puts back exactly its token |
| Tokens.PartitionBounds | server/server.go:700-703 | A partition means at most n senders, distinct ids in range, and a channel that is not full while a token is out |
| Tokens.NewReaderPartitions | server/server.go:700-703 | A new reader's channel holds 1 to n |
| Tokens.SendsAfterCancel | server/server.go:716-740 | After a cancel no step raises the count plus the number of senders past their check |
| Tokens.TokensComeBack | server/server.go:726-732 | After a cancel the steps left bring every token back to the channel |
| Tokens.StoppedForGood | server/server.go:719-720 | A dispatcher that has stopped never takes a token again |
| ClientCounts.TxcOfClient | client/client.go:379 | In every run of any number of servers: TXC is, modulo 2^64, a sum that is at least what has been reported of all hosts of all servers, and equals it if and only if the client has at most one point about each host from each server |
| RequestCounts.SumOfPoints | client/client.go:378-379 | The same for any points of one server in any order |
| RequestCounts.SumOfCounts | server/server.go:631 | In every run on distinct hosts a host's counts add up to its latest one if and only if it has one point |
| RequestCounts.CountsAreTotals | server/server.go:787 | In every run every point carries at least one request, a host's counts ascend, and none exceeds the requests sent to it |
| Witnesses.CountsTwice | client/client.go:379 | A run from the start of a test: one request is sent, and the counts of its two points add up to two |
| DeliveredRuns.TxcIsTooHigh | client/client.go:379 | A run of two servers that measure each other and their client: one request has been sent, and TXC is two |
| DeliveredRuns.EveryRunCanBeDelivered | server/server.go:499-514 | Every run of readers and harvester without cancel or errors is part of a run of the whole in which the client has all points after each harvest |
| RequestCounts.ApplyCounts | server/server.go:631 | Every step keeps a host's reported counts ascending, at least one, and bounded by its running total: statistics imply a counted request |
| DeliveryRuns.FileIsAllBatches | server/server.go:554-588 | In every run, between flushes: the batches hold in order all points made and errors accepted so far but the pending ones; and if no write to the file has failed, it holds in order what the batches hold |
| DeliveryRuns.IntactExactly | server/server.go:561-563 | The file is intact if and only if no write of the run has failed |
| DeliveryRuns.ErrorsAreConserved | server/server.go:568-578 | In every run accepted errors are, in order, those of all batches followed by the pending ones, and neither a batch nor the pending list exceeds six |
| DeliveryRuns.AddErrorOk | server/server.go:85-100 | Pending errors stay one-to-one with the keys of errMap, and an error is dropped exactly when its id is pending |
| DeliveryRuns.PendingErrorsBounded | server/server.go:568-575 | At most six errors are pending, as many as there are ids |
| DeliveryRuns.ListenerGetsEverything | server/server.go:517-530 | A listener registered after any run gets the consecutive batches from then on, up to its first failed write, with no gap or duplicate |
| DeliveryRuns.FollowerStep | server/server.go:590-604 | One step gives a connection nothing, the current batch, a failed write that closes it for good, or the runner's Done |
| TestEnd.DoneExactly | server/server.go:476-489 | In every run of a test that has ended, Done is in the runner's log, after every batch and as its last entry, if and only if no write to the runner has failed; until then the connection is open if and only if none has |
| TestEnd.CancelEndsRounds | server/server.go:500-502 | After a cancel at most the batch of the round under way is still made |
| DeliveryRuns.DoneIsLast | server/server.go:477-489 | The runner sees batches only, then Done as its last signal; with it the context is cancelled and every batch was written before |
| DeliveryRuns.ClientHoldsTheFile | client/client.go:224-235 | One server's share: once its Done has been read and its handlers have run, in any order, the client has exactly its points; and if no write to its file has failed, exactly the points and errors of the file |
| DeliveryRuns.ApplyFaithful | server/server.go:538-606 | Every step keeps the agreement of test, file, connections and client |
| DeliveryRuns.FileHolds | server/server.go:577-588 | The records of consecutive batches hold exactly their points and errors in order |
| Server.Test.AddError | server/server.go:85-100 | An error with a new id is appended with its text and time and its id is pending; nothing changes for a nil error or a pending id |
| Server.Test.HarvestReader | server/server.go:620-655 | Field by field: the point carries the reader's old values and the clock's and the host's, and the reader starts over, keeping address and count |
| Server.Test.GenerateDataPoints | server/server.go:608-660 | Appends one point per reader with stats, in reader order, and restarts exactly those |
| Server.AtMostOnePointEach | server/server.go:608-657 | A harvest makes at most one point per reader |
| Server.PointsFromExactly | server/server.go:609-657 | A harvest makes exactly one point per reader with stats, at the place of its order among them, with its values field by field |
| Server.Test.SendAndSaveData | server/server.go:538-606 | The file is created if there is none and storage gives one; it grows by what its disk takes of the batch's writes, points before errors, failures ignored, and by exactly their bytes if it takes all; both lists are emptied; every open connection whose write succeeds is open with the batch behind its log, every other one is closed |
| Server.FlushSavesExactly | server/server.go:554-588 | That is the bytes of the batch if and only if the disk takes every write |
| RecordFormat.SavedExactly | server/server.go:561-563 | Writes with errors ignored leave exactly what was to be written if and only if each was taken in full; otherwise less |
| RecordFormat.File.SaveRecords | server/server.go:561-563 | Three writes a record, each leaving what the disk takes of it |
| Server.Test.SendToAll | server/server.go:590-604 | For any outcomes of the writes, in any order: an open connection gets the batch exactly once and stays open if its write succeeds, and is closed if not; closed ones stay as they are |
| Server.Test.CreateAndRunTest | server/server.go:476-515 | For any clock that advances a second per sleep and any stops by others, it flushes exactly until the first look at which it is stopped or more than Duration seconds are over, at most Duration + 1 times; entry k of the runner's log is the points of the readers with stats in round k and the errors then pending, followed by one Done, up to the first failed write; then the test is cancelled |
| Server.StopAllTests | server/server.go:330-341 | Cancels exactly the tests with the given id, or all for an empty one |
| RecordFormat.EncodeConcat | server/server.go:554-588 | Appending to a file appends records |
| Refinement.HarvestRefines | server/server.go:614-657 | An uninterrupted harvest of the machine makes the point and leaves the reader that the object's harvest promises |
| Refinement.HarvestAllRefines | server/server.go:608-660 | So does an uninterrupted harvest of all readers with GenerateDataPoints |
| Refinement.FirstReadRefines | server/server.go:442-473 | So does an uninterrupted first Read of a body |
| Refinement.LaterReadRefines | server/server.go:442-473 | So does an uninterrupted later Read: no sample, but statistics and bytes |
| Refinement.RoundTripRefines | server/server.go:802-813 | So does an uninterrupted recording of a round trip |
| Refinement.FlushRefines | server/server.go:554-588 | An uninterrupted flush empties both lists, makes the batch, and grows the bytes of the file as the object's flush promises when no write fails |
| Refinement.FanOutRefines | server/server.go:590-604 | So does a fan-out in any order of connections with any write failures |
| Refinement.EveryPointIsAnalyzed | client/client.go:537-569 | For any finished saved runs on any servers in which no write to a file failed, the downloaded file, its analysis and its CSV hold every point ever made exactly once, but for the points of lines whose handlers had not run when the client went on |
| RecordFormat.WholePath | client/client.go:535-569 | From files through any order of arrival and any ordered permutation: every server's points and errors by time, points first, but for lines handled too late; all readers give them back, AnalyzeTest only the points, MakeCSV as many points as its writer has room for |
| RecordFormat.ScanOfEncoded | server/file.go:43-55 | Scanning a written file yields the lines before the first one too long for the scanner, and is complete exactly when there is none |
| RecordFormat.DownloadCollectsFiles | client/client.go:230 | A download and the lines handled too late for it together have the points and errors of all servers' files as a multiset, whatever order the lines are handled in |
| RecordFormat.ReceivePayloads | client/client.go:255-278 | Receiving the lines of any records gives their points and errors in order |
| RecordFormat.AnalysisExactly | client/client.go:648-668 | On any lines: AnalyzeTest reads the file if and only if it reads every line; otherwise the first line it does not read decides, and it crashes if and only if that line is empty |
| RecordFormat.AnalyzePayloads | client/client.go:648-668 | On any records AnalyzeTest recovers the points in order and no error |
| RecordFormat.CsvOfPayloads | client/client.go:787-800 | On any records the readable rows are one per point in order |
| RecordFormat.ExportOfRecords | client/client.go:787-800 | Exporting a written file gives a row for each of its points in order and succeeds if the writer has room, else the first ones that fit and a failure |
| RecordFormat.ExportRecords | client/client.go:787-800 | The same of the method's result |
| RecordFormat.FormatBytes | shared/shared.go:77-84 | The tags are the digits 0 for points and 1 for errors, and a record ends with a line feed |
| RecordFormat.ScanSplits | server/file.go:43-45 | A complete scan of a file without carriage returns splits it at its line feeds and nowhere else |
| RecordFormat.StreamTestFiles | server/file.go:31-59 | One message per line of the files in order, ending at the first write that fails or the first file that cannot be scanned to its end |
| RecordFormat.StreamRecords | server/file.go:31-59 | Streaming the written files of a test sends one message per record in order and succeeds if and only if the connection takes them all, else the first ones that it takes |
| RecordFormat.AnalyzeTest | client/client.go:648-668 | The loop is the line-by-line reading, with its failure on an undecodable line and its crash on an empty one |
| RecordFormat.MakeCSV | client/client.go:787-800 | The rows before the first undecodable point or failed row, and whether there was one |
| Client.Responses.CollectDataPoint | client/table.go:290-300 | Appends the points and errors of one batch, nothing for an absent one |
| Client.Responses.ReceiveJSONDataPoint | client/client.go:255-278 | A line tagged 0 that decodes appends its point, one tagged 1 its error; any other line changes nothing |
| Client.Responses.DownloadTest | client/client.go:519-572 | For the lines whose handlers run before the sort, in any order: both lists sorted by time, and a new file with the points, then the errors; it succeeds if and only if there is a file and its disk takes every write, and leaves a prefix otherwise |
| RecordFormat.File.WriteRecords | client/client.go:558-569 | All records in order if and only if the disk takes every write, and a prefix of their bytes otherwise |
| RecordFormat.File.WriteStructAndNewLine | shared/shared.go:342-357 | Nothing for an object that cannot be marshalled; else tag, object and line feed, or what a failed write left of them, and the length of the last write |
| PlainCodec.PlainIsFaithful | shared/shared.go:342-357 | A concrete pair of encoders gives every point and every error back, in one object without a raw line feed |
| RealTime.PrintOnTick | client/client.go:363-436 | In either unit each latency shown is that of the attained extreme of its own column, or of its starting value, as a thousandth cut towards zero unless micro; totals are the sums modulo 2^64 of the byte and request counts, and rates, drops, memory and CPU the extremes of their columns |
| RealTime.RowIgnoresOrder | client/client.go:378-417 | The row is the same for any order in which the handlers collected the points |
| RealTime.RowShowsExtreme | client/client.go:389-410 | Each latency column is the extreme whose conservation is proved |
| RealTime.LeastIsLeast | client/client.go:374-400 | The memory and CPU lows are attained minima |
| Folds.FoldPermutation | client/client.go:378-417 | Sum, max and min of a column depend only on which records there are |
| Folds.FoldIsExtreme | client/client.go:389-410 | A running extreme is attained, or its starting value, and bounds every entry |
| Sorting.SortFunc | shared/sorting.go:41-59 | In place, an ordered permutation by an integer key |
| Percentiles.SortDataPoints | shared/sorting.go:29-39 | In place, an ordered permutation: by TTFBH for Sort TTFBH, by RMSH for every other value, known or not |
| Percentiles.UpdatePSStats | shared/stats.go:3-37 | The five slots of a bucket become the statistics of its values and one more: the point's TTFBH for Sort TTFBH, else its RMSH |
| Percentiles.AnalyzeLatencyTest | client/client.go:705-741 | Sorts in place by TTFBH for Sort TTFBH, else by RMSH, and leaves in each array the count, sum, minimum, truncated mean and maximum of these latencies of the points from its cut on |
| Percentiles.BucketStatsAreTrue | client/client.go:718-741 | A non-empty bucket shows the true count and sum, its first key as min, the mean truncated towards zero, and the last key as max if and only if it is not negative |
| Percentiles.PercentilesRise | client/client.go:708-763 | For two or more points min and average never decrease from P10 to P99, all four show the largest key as max, and P99 covers the worst percent |
| Percentiles.MeansGrow | client/client.go:705-741 | The truncated mean of a suffix of ascending keys never falls as the suffix shrinks |
| Percentiles.BucketsIgnoreOrder | client/client.go:705-741 | All bucket statistics are the same for any arrival order and any order the sort leaves equal points in |
| Percentiles.AscendingUnique | shared/sorting.go:41-59 | The sorted key sequence is determined by the multiset of keys |
| Percentiles.OutsideIsBelow | client/client.go:724-741 | Every point outside a bucket is at most every point inside it |
| CutPoints.CutsAreNear | client/client.go:708-711 | Up to 2^40 points: P10 and P99 cuts exact, P50 and P90 exact unless 100 divides p * n and then at most one too low |
| CutPoints.Cut99IsExact | client/client.go:711 | The P99 bucket holds exactly the ceiling of n / 100 points |
| CutPoints.Cut10IsExact | client/client.go:708 | The P10 cut is the ceiling of n / 10: both roundings together undo each other |
| CutPoints.CutsNestUnlessSingle | client/client.go:708-711 | The four buckets nest if and only if there is not exactly one point |
| CutPoints.Cut50OfFiftyEight | client/client.go:709 | With 58 points the P50 cut is 28, one below half |
| CutPoints.Cut90OfSeventy | client/client.go:710 | With 70 points the P90 cut is 62, one below nine tenths |
| CutPoints.RoundIsNear | client/client.go:708-711 | Rounding to 53 bits is within one part in 2^53 |
| CutRounding.MiddleCutsExactly | client/client.go:709-710 | The P50 and the P90 cut are exact if and only if the product does not fall more than half of its last place short of the integer, by what the division rounded away |
| CutRounding.CutIsExactUnless | client/client.go:709-710 | And if it does, the cut is exactly one too low |
| Lifecycle.CounterIsLiveHosts | client/client.go:146-163 | After initializeClient has succeeded the counter is the number of hosts whose handler has not finally exited, and is zero or less exactly when all have |
| Lifecycle.CancelEndsRestarts | client/client.go:153-156 | After a cancel no host is ever put to sleep for a restart again, in any continuation |
| Lifecycle.ReturnAfterCancel | client/client.go:153-156 | Once cancelled, a handler that returns for whatever reason has exited for good and lowers the counter |
| Lifecycle.ReturnBeforeCancel | client/client.go:157-162 | Before that it sleeps for a restart exactly if it failed and restarts are configured, and lowers the counter otherwise |
| Lifecycle.CancelledHostExits | client/client.go:146-163 | After a cancel every handler that is not stuck at a full channel can exit within two steps of its own |
| Lifecycle.GivenUpForGood | client/client.go:138-141 | Once initializeClient has given up it never succeeds and counts no host any more |
| Lifecycle.SuccessIsConnectedExactly | client/client.go:127-161 | Every successful initializeClient has all hosts connected if and only if handlers are not restarted on errors or there is at most one host |
| Lifecycle.ReadyWithoutRestart | client/client.go:127-143 | Without restarts success means every host connected exactly once, with nothing left in the channel |
| Lifecycle.ReadyMeansAnnouncedOnce | client/client.go:127-143 | With or without restarts: all hosts have announced themselves exactly once if and only if none has twice |
| Lifecycle.ReadyTooEarly | client/client.go:127-161 | For any number of hosts with restarts, a run in which it succeeds while all hosts but one have never connected |
| Lifecycle.NeverBlockedExactly | client/client.go:213 | No host is ever blocked at its announcement if and only if handlers are not restarted or there are no hosts |
| Lifecycle.BlockedRun | client/client.go:213 | For any number of hosts with restarts, a run that blocks a host |
| Lifecycle.BlockedForGood | client/client.go:298-300 | A host blocked in any run from the start stays blocked in every continuation, and the counter stays positive |
| Lifecycle.FullChannelBlocks | client/client.go:213 | With the done channel full, a reconnecting host blocks in every continuation and the counter stays positive |
| KeepAlive.KeepAliveLoop | client/client.go:280-304 | Whatever it reads, it ends at the first iteration with a reason to, in the order in which it looks: the context, more than Duration + 20 seconds, the context again, the ticker, the first counter that is not positive; and comes to at most Duration + 21 iterations |
| Payload.AsyncReader.Read | server/server.go:442-474 | What is copied, that the buffer is filled or the payload used up, where the body stands, when it ends, and what the reader's counters become |
| Payload.NetPerfReader.RecordRoundTrip | server/server.go:804-813 | Both round-trip extremes join the sample and the reader has stats |
| Payload.ReadBody | server/server.go:442-474 | For any buffer sizes, driving Read over a request body delivers a prefix of the payload, and all of it when it ends; adds exactly the bytes delivered to TX; takes one time-to-first-byte sample; and ends within PayloadSize + 1 non-empty reads |
| Payload.ReadSome | server/server.go:457-473 | One read delivers the next bytes, and reports the end exactly when all have been delivered before |
| Payload.PayloadIsDeliveredOnce | server/server.go:467-473 | For any buffer sizes the reads deliver a prefix of the payload in order, all of it within PayloadSize non-empty reads |
| Payload.OneSamplePerRequest | server/server.go:444-454 | However often a body is read, only the first read's latency is a sample |
| Payload.EndIsFinal | server/server.go:467-469 | Once all has been delivered, any further reads deliver nothing |
| Mesh.FullMesh | server/server.go:385-399 | With distinct hosts, no real IPs and no server bound to another's listed address, every ordered pair of different hosts is measured exactly once |
| Mesh.MeshOfServer | server/server.go:385-399 | A server measures every other host exactly once if and only if it takes none of them for itself |
| Mesh.RealIPHidesPeer | server/server.go:388-390 | With a real IP that is a prefix of a peer, the mesh is not covered |
| Mesh.SkipsExactly | server/server.go:387-393 | A server skips a host if and only if it is at the bind address, or the real IP is not empty and some slice of the host's address |
| Mesh.KeptInOrder | server/server.go:385-399 | Readers come in the order of the listed hosts |
| Mesh.AddressNamesBoth | server/server.go:387 | A joined address can be taken apart into its host and port |
| Mesh.AddressesAreDistinct | server/server.go:387 | Joined addresses of different hosts differ |
| Mesh.FilterSelf | client/client.go:78-87 | The in-place delete leaves the list without the first self and clears the freed slot |
| Mesh.RunTestConfigs | client/client.go:350-359 | Every connected server gets the list without itself, and the original list is intact and restored |
| Mesh.NewTest | server/server.go:382-403 | A reader per listed host that is not skipped, in order, and an error when there is none |

## Left out

- HTTP, websockets, TLS, dialers and the web server: a connection is an ordered log whose writes may fail.
- JSON reflection and CSV formatting: `Codecs` is any pair of encoders that give one object in braces without a raw line feed and decode what they encode; strings are taken to be valid UTF-8, and marshalling a point or an error always succeeds. The field Received is not encoded.
- The rate TX, dropped packets, memory and CPU: arbitrary values of a point. The monitor loop that fills them is not modelled.
- The elapsed seconds are exact integers of nanoseconds, not float64.
- DeliveryRuns.FileIsAllBatches: what the records of a file are after a failed write, which leaves a broken line; `Server.Test.SendAndSaveData` says which bytes are left.
- Server.Test.Meanwhile: stands for all other goroutines during a sleep; only its contract is used.
- Several files per test, and files left over from earlier tests with the same id.
- The wrap-around of TXCount at 2^64; Pipeline and PrintOnTick do model the wrap of byte counters and of sums.
- Sorting.SortFunc: the library's sorting algorithm is not known here; an insertion sort stands for it, and every result used holds for any ordered permutation.
- CutPoints.CutsAreNear: up to 2^40 points.
- Percentiles.PercentilesRise: keys are not negative and their sum fits in int64, as latencies of feasible tests do; `BucketStatsAreTrue` covers negative keys.
- Negative Concurrency and PayloadSize, which make the program panic, and recovered panics other than a sender's return of its token.
- Data races on maps and unguarded fields: each access is one atomic step, except for the loads and the reset of a harvest; a handler that appends to the collected points while a download is sorting or writing them counts as one that runs after it.
- Tests that fail to be created, listing and deleting of tests, ping, and one connection registered under two ids.
- ParseHosts, DNS, file globs, the host filter, printed tables, styles, and command line flags: they depend on libraries or only format what is modelled here.
