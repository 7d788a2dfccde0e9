# Verified model of a remote-desktop client's transfer engine, sessions and wire formats

This project models the parts of the application where correctness depends on
interleaving, arithmetic or exact byte formats, and proves what they are for:

* **The SFTP transfer engine** (`sftp_transfer.rs`). Each stream is a state
  machine over its await points with an adversarial server: a READ is answered
  by any non-empty prefix, by an empty payload, by end of file at any time or by
  a failure; WRITEs are applied in any order, an acknowledgement means that the
  write has been applied, and acknowledgements are taken in issue order (section
  6.4 of draft-ietf-secsh-filexfer-02). On top are worlds of several
  interleaving streams with their shared child cancellation token, progress
  counter and sum check. The imperative loops are methods proved to take exactly
  the machines' steps. The main results are that every successful transfer
  equals a plain sequential copy, what every state of every run satisfies, and
  what every run returns.
* **Session and proxy lifecycles** (`connection_manager.rs`). PTY sessions under
  generation counters, one manager method at a time, and SOCKS supervisors that
  race with restarts, stops and cleanups, one lock-guarded section at a time.
* **Two date algorithms that must agree** (`sftp_client.rs`, `commands.rs`): a
  closed form over 400-year eras and a subtraction loop.
* **Two walks of a remote tree** (`commands.rs`): recursive and explicit-stack.
* **Proxy handshakes** (`proxy.rs`, `socks_proxy.rs`): HTTP CONNECT with replay
  of bytes read too far, a SOCKS client and a SOCKS server.
* **Listing lines** (`ls_parser.rs`, `ftp_client.rs`).

## Layout

| file | what it holds |
|---|---|
| `Wrappers`, `Bytes`, `Text`, `Sockets` | options; byte files and positioned writes; order, words and numbers of strings; a peer's byte stream with nondeterministic reads |
| `Window`, `Segments` | request sizes, pipeline depths, stream counts; the partition of a file |
| `Coordinator` | the verdict over joined results, the cancellation tokens, the progress counter |
| `DownloadStream`, `DownloadLoop` | one download stream as a machine; the loop that refines it |
| `UploadStream`, `UploadLoop` | one upload stream and the server's half; the loop, reader and write order |
| `ParallelDownload`, `ParallelUpload` | worlds of interleaving streams and their invariants |
| `DownloadOutcomes`, `UploadOutcomes`, `DownloadVerdicts`, `UploadVerdicts` | what a stream and what a driver return, told from the events |
| `DownloadTheorems`, `UploadTheorems` | what whole parallel transfers guarantee |
| `DownloadLiveness`, `UploadLiveness` | that they can always be brought to success |
| `DownloadEndings`, `UploadEndings` | aborts, step bounds and progress of whole parallel runs |
| `PtySessions`, `PtyTransfers`, `PtyEffects`, `PtyManager` | the manager's calls as functions of its state; which transfers and sessions they touch; the methods on its maps |
| `SocksLifecycle`, `SocksRestarts`, `SocksCleanups`, `SocksManager` | interleaved SOCKS steps; what a restart waits for; what a cleanup spares; the methods on the map |
| `Calendar`, `Timestamps` | days and dates; printed instants |
| `TreeWalk`, `TreeTheorems` | the two walks; exactness, uniqueness and agreement |
| `HttpConnect`, `SocksWire`, `SocksPeers`, `SocksEndpoints`, `Tunnels` | the handshakes as byte functions, against every peer, and as code on sockets; the resulting tunnel |
| `ListingLines`, `FtpLines`, `ListingRoundTrip` | the two line parsers, each with its own token tests; printing and parsing back |

`dafny verify dfyconfig.toml` checks everything.

## Where the code does not keep a promise, and exactly when

* `download_segments` treats a segment of length zero as "size unknown" and
  reads to end of file. `CleanRunsSucceedIffSegmentsAreNonEmpty` shows that an
  otherwise clean download succeeds if and only if there are at least as many
  bytes as streams, and `FewBytesEndIncomplete` that the failing runs exist.
  `SplitTransfersAreLongEnough` shows that the default thresholds exclude them;
  only a stream count forced through `RSHELL_DOWNLOAD_STREAMS` can lead there.
  Uploads need no such condition.
* A SOCKS restart is documented as fully stopping the old listener first and
  waiting for its socket to close. Over runs whose starts of one id do not
  overlap it waits for the listener it removed, that listener is done when the
  wait does not time out, and it is done if and only if its exit cleanup ran
  between the removal and the end of the wait
  (`RemovedListenerIsDoneIffItExits`). A start meets an older unfinished
  listener if and only if that one was let go, by a stop, a cleanup or a wait
  that ended too early, and has not run its exit cleanup
  (`StartsMeetOnlyListenersLetGo`). `TimedOutRestartLeavesBothRunning` and
  `StartAfterStopLeavesBothRunning` are such runs in which it does.
* A failing stream is documented to abort its siblings. A download stream that
  cannot open its local file does not: exactly the other failures and the
  caller's cancellation do (`DownloadEndings.AbortedIffCancelledOrFailed`).
* A listener can moreover lose its entry for good. The step that does it is
  inserting over an entry (`OrphansComeFromOverwriting`);
  `OverlappingStartsLoseAListener` is a run that takes it, and starts of one id
  that do not overlap never do (`SerialStartsLoseNothing`).
* A connection's SOCKS cleanup goes by proxy ids noted earlier. When an id has
  been restarted on another connection in between, that connection's proxy is
  stopped (`CleanupHitsOthersIffIdMoved`, `CleanupStopsAMovedProxy`).
* Timestamps sort as time exactly through year 9999
  (`TextOrderHoldsExactlyThrough9999`).
* The HTTP status check is documented as accepting 200; it also accepts `+200`
  and `00200` (`AcceptedCodes`).
* SOCKS4 recovers another target, or none, if and only if the address is
  0.0.0.x with x non-zero (`Socks4KeepsTheTarget`). A zero byte in the user id
  keeps the target but ends the id early: the rest of it is left in front of the
  relayed bytes (`Socks4LeavesTheRestOfTheId`, `Socks4TakesTheRequest`).
* A month-layout row whose name holds a long-iso pair is misread by the `ls`
  parser, and no other month row is (`MonthRoundTrip`).

## Model

| member | source | states |
|---|---|---|
| `Window.NegotiatedLen` | src-tauri/src/sftp_transfer.rs:314-343 | A request size is never zero, never above the clamp and never above a positive advertised limit; without one it is the fallback |
| `Window.DepthFor` | src-tauri/src/sftp_transfer.rs:326-355 | Depth times request size covers the channel window, the floor is respected, and above the floor one request fewer would not cover it |
| `Window.RequestSizes` | src-tauri/src/sftp_transfer.rs:310-343 | READs and WRITEs carry 32 KiB without a usable limit, else the advertised limit but at most 255 KiB |
| `Window.ReadDepthIsExactlyTheWindow` | src-tauri/src/sftp_transfer.rs:326-336 | For every limit the read floor never engages and a full read pipeline covers the 32 MiB window and exceeds it by less than one request |
| `Window.DownloadStreamCount` | src-tauri/src/sftp_transfer.rs:216-222 | Four download streams from 64 MiB on, one below |
| `Window.WriteDepthIsExactlyTheWindow` | src-tauri/src/sftp_transfer.rs:338-355 | For every limit the write floor never engages and a full write pipeline covers 4 MiB and exceeds it by less than one block |
| `Window.UploadStreamCount` | src-tauri/src/sftp_transfer.rs:134-147 | Between one and eight upload streams, and exactly one below the parallel threshold |
| `Window.UploadStreamsMeetTheTarget` | src-tauri/src/sftp_transfer.rs:134-147 | Below eight streams the chosen ones' 2 MiB server windows carry 125 MB/s over the clamped round trip, and one stream fewer would not |
| `Window.UploadStreamsMonotone` | src-tauri/src/sftp_transfer.rs:134-147 | A longer round trip never gets fewer streams |
| `Window.SplitTransfersAreLongEnough` | src-tauri/src/sftp_transfer.rs:920-931 | Whenever a transfer is split there are at least as many bytes as streams |
| `Segments.RangesAreAdjacent` | src-tauri/src/sftp_transfer.rs:492-499 | The ranges start at zero, end at the total and follow each other without gap or overlap |
| `Segments.RangesAreDisjoint` | src-tauri/src/sftp_transfer.rs:923-930 | A stream's range ends before any later stream's range begins |
| `Segments.LengthsSumToTotal` | src-tauri/src/sftp_transfer.rs:923-930 | The segment lengths add up to the total |
| `Segments.RangesAreEven` | src-tauri/src/sftp_transfer.rs:492-499 | All ranges but the last are equally long; the last is longer by less than one byte per stream |
| `Segments.NonEmptyIffEnoughBytes` | src-tauri/src/sftp_transfer.rs:920-930 | Every segment is non-empty if and only if there are at least as many bytes as streams |
| `Segments.Owner` | src-tauri/src/sftp_transfer.rs:492-499 | Every file position below the total lies in some stream's range |
| `DownloadStream.AnswersAreTheLegalReplies` | src-tauri/src/sftp_transfer.rs:358-375 | The adversarial server produces exactly the legal READ replies: any non-empty prefix of what was asked, an empty payload, end of file at any time, or a failure |
| `DownloadStream.StepKeepsInv` | src-tauri/src/sftp_transfer.rs:723-799 | Every step keeps: the in-flight requests, in issue order, tile [transferred, next_offset); written bytes equal the remote bytes from the base; requests are well sized; a known total is never passed |
| `DownloadStream.RunKeepsInv` | src-tauri/src/sftp_transfer.rs:680-816 | The same over every run, for every server, known or unknown size |
| `DownloadStream.ReadsAreBounded` | src-tauri/src/sftp_transfer.rs:732-752 | READs issued never exceed replies taken plus depth times (1 + short replies); none is empty, oversized or past a known total |
| `DownloadStream.WaitingMeansFull` | src-tauri/src/sftp_transfer.rs:729-757 | Over every run, whenever a stream waits for a reply the pipeline holds its full depth or the whole segment has been asked for |
| `DownloadStream.RunsAreBounded` | src-tauri/src/sftp_transfer.rs:723-816 | Every run ends: its number of steps is bounded by twice the bytes to move plus four, also with an unknown total |
| `DownloadStream.NeverStuck` | src-tauri/src/sftp_transfer.rs:723-816 | Until a run is over, some step other than a cancellation is possible, and then none is |
| `DownloadStream.NothingIsReadAfterLeaving` | src-tauri/src/sftp_transfer.rs:724-763 | Once the loop is left (for instance by a transfer cancelled beforehand) no READ is issued and nothing is written |
| `DownloadStream.PlainCopyReachesGoal` | src-tauri/src/sftp_transfer.rs:680-816 | The sequential reference copy is the remote bytes from the base to the segment end or end of file |
| `DownloadStream.PipelineRefinesPlainCopy` | src-tauri/src/sftp_transfer.rs:680-816 | Against any server what is written is always a prefix of the one-read-at-a-time copy; against a server that reports end of file only at the end, a success has written exactly that copy |
| `DownloadOutcomes.OutcomesComeFromEvents` | src-tauri/src/sftp_transfer.rs:757-816 | Over every run, from its events alone: it ends with the cancellation error iff it saw its token cancelled and the closing flush succeeded, with the byte count iff it did not and the flush succeeded, with a failure iff that failure (open, read, store, flush) is among the events, and has ended in no other case |
| `DownloadLoop.TopUp` | src-tauri/src/sftp_transfer.rs:732-752 | The refill loop issues exactly the machine's requests and stops exactly when the machine cannot issue |
| `DownloadLoop.RunPass` | src-tauri/src/sftp_transfer.rs:723-799 | One pass of the loop body, on local cursors, queue and writer, is one pass of the machine, and the writer holds its bytes at the base |
| `DownloadLoop.DownloadViaRaw` | src-tauri/src/sftp_transfer.rs:680-816 | The loop terminates for every server and cancellation pattern as a run whose every event the environment dictates; it returns the cancellation error, the byte count or a failure exactly when the events say so; with an honest server a success leaves the plain copy in the writer at its base and nothing else changed |
| `Coordinator.Conclude` | src-tauri/src/sftp_transfer.rs:640-666 | The loop over the joined results returns the first genuine failure, else the cancellation, else the incomplete error with the true count, else the total |
| `Coordinator.VerdictIsUnique` | src-tauri/src/sftp_transfer.rs:640-666 | The result is determined by the joined results, the caller's token and the total |
| `Coordinator.VerdictsFollowFailures` | src-tauri/src/sftp_transfer.rs:640-666 | The verdict is the cancellation iff the caller cancelled and nothing failed, and a cause's failure iff that is what the first failed stream failed of |
| `Coordinator.SettleKeepsBlame` | src-tauri/src/sftp_transfer.rs:620-636 | The child token is cancelled only behind the caller's or after some stream failed genuinely: kept by every stream's end |
| `Coordinator.FailuresAreGenuine` | src-tauri/src/sftp_transfer.rs:1094-1118 | If the caller never cancelled and some stream failed, the verdict is a genuine stream failure, never the cancellation or incomplete error |
| `Coordinator.RecordKeepsValid` | src-tauri/src/sftp_transfer.rs:1045-1056 | The aggregate stays the sum of the last reported positions, with emitted values never decreasing, if and only if no stream reports backwards |
| `Coordinator.RecordEmits` | src-tauri/src/sftp_transfer.rs:585-597 | A report notes the stream's position and, when due, emits the new sum of all positions |
| `Coordinator.EndIsHonest` | src-tauri/src/sftp_transfer.rs:652-666 | When every result has been reported, the reports including the closing one never fall or pass the total, and a success ends on it |
| `Coordinator.ProgressAggregator.ReportEnd` | src-tauri/src/sftp_transfer.rs:663-666 | The closing callback: on success, and only then, the byte count is reported |
| `Coordinator.ProgressAggregator.Report` | src-tauri/src/sftp_transfer.rs:585-597 | One per-stream callback on the shared counters: the new state is the recorded one, and stays valid when the position does not go back |
| `ParallelDownload.ApplyKeepsInv` | src-tauri/src/sftp_transfer.rs:600-637 | Every action of the parallel run (a stream's step, a reply, a cancellation) keeps the streams', file's, tokens' and progress invariants |
| `ParallelDownload.EveryWorldIsOk` | src-tauri/src/sftp_transfer.rs:557-667 | Those invariants hold in every reachable state of every interleaving |
| `DownloadTheorems.SplitJobFits` | src-tauri/src/sftp_transfer.rs:492-499 | The driver's jobs all have a known, bounded size if and only if there are at least as many bytes as streams |
| `DownloadTheorems.DownloadSegmentsCopies` | src-tauri/src/sftp_transfer.rs:557-667 | For every server and every schedule, success with at least as many bytes as streams means the count is the total and the local file is the remote file's first total bytes |
| `DownloadTheorems.DownloadFailuresAreGenuine` | src-tauri/src/sftp_transfer.rs:600-657 | Over every run the caller never cancels, any failed stream surfaces as a stream failure |
| `DownloadTheorems.DownloadProgressIsHonest` | src-tauri/src/sftp_transfer.rs:573-666 | At every point the aggregate is the sum of the reported positions and at most the total; with the driver's closing report the values still never fall or pass the total, and a success ends on the total |
| `DownloadTheorems.DueReportsAreEmitted` | src-tauri/src/sftp_transfer.rs:573-597 | Over every run a stream reports on opening its file, on its closing flush and, when its interval has passed, on storing bytes, and then and only then its stored bytes are noted and, when due, the new sum emitted |
| `DownloadVerdicts.DownloadVerdictsComeFromEvents` | src-tauri/src/sftp_transfer.rs:600-666 | Over every run the download reports the cancellation iff the caller cancelled and no stream has a failing event, and a cause's failure iff that is the failure of the first stream with one |
| `DownloadTheorems.ReadsStayInTheirSegment` | src-tauri/src/sftp_transfer.rs:732-752 | Every READ of every stream lies inside that stream's segment and inside the file's first total bytes |
| `DownloadTheorems.ReadsOfStreamsAreDisjoint` | src-tauri/src/sftp_transfer.rs:732-752 | READs of different streams never ask for a common byte |
| `DownloadTheorems.StreamsRunTheirMachines` | src-tauri/src/sftp_transfer.rs:601-638 | Seen alone, each stream of a parallel run is a run of the single-stream machine |
| `DownloadTheorems.CleanRunsSucceedIffSegmentsAreNonEmpty` | src-tauri/src/sftp_transfer.rs:557-667 | With an honest server, a long enough file, no failure and no cancellation, the driver succeeds if and only if there are at least as many bytes as streams: an empty segment reads as unknown size |
| `DownloadEndings.AbortedIffCancelledOrFailed` | src-tauri/src/sftp_transfer.rs:600-636 | In every reachable world the streams find their token cancelled if and only if the caller has cancelled or some stream has failed, not counting one that could not open its local file |
| `DownloadEndings.NothingIsReadAfterAbort` | src-tauri/src/sftp_transfer.rs:620-636 | Once that is so no stream issues another READ, however the run goes on |
| `DownloadEndings.ParallelRunsAreBounded` | src-tauri/src/sftp_transfer.rs:600-638 | Whatever the server answers and however the streams interleave, their steps together never exceed the sum of the streams' bounds |
| `DownloadEndings.SplitDownloadsAreBounded` | src-tauri/src/sftp_transfer.rs:557-638 | For a split with at least as many bytes as streams that is twice the total plus four per stream |
| `DownloadEndings.ParallelNeverStuck` | src-tauri/src/sftp_transfer.rs:600-638 | In every world satisfying the invariant all streams have ended if and only if no step other than a cancellation is possible |
| `DownloadLiveness.FinishStream` | src-tauri/src/sftp_transfer.rs:601-638 | From any state without failure or cancellation, any one stream can be run to success while the others stand still |
| `DownloadLiveness.CleanRunExists` | src-tauri/src/sftp_transfer.rs:557-667 | For every job some run against an honest server ends every stream well, having moved its goal |
| `DownloadLiveness.FewBytesEndIncomplete` | src-tauri/src/sftp_transfer.rs:557-667 | With fewer bytes than streams such a run ends every stream well and the driver still reports it incomplete |
| `DownloadLiveness.SuccessIsReachable` | src-tauri/src/sftp_transfer.rs:557-667 | For every file and every split with enough bytes, some schedule ends in success: the theorems about successful runs are about runs that exist |
| `UploadStream.StepKeepsInv` | src-tauri/src/sftp_transfer.rs:1186-1240 | Every step keeps: issued blocks tile [0, next_offset) with the source's own bytes, acknowledged ones are applied, transferred is the end of the acknowledged prefix, depth is respected |
| `UploadStream.RunKeepsInv` | src-tauri/src/sftp_transfer.rs:1138-1262 | The same over every run, whatever order the server applies writes in |
| `UploadStream.WritesAreDisjoint` | src-tauri/src/sftp_transfer.rs:1210-1216 | A WRITE ends before any later WRITE of the stream begins |
| `UploadStream.EveryByteIsSentOnce` | src-tauri/src/sftp_transfer.rs:1196-1217 | Every source byte below the issue cursor is in exactly one issued WRITE |
| `UploadStream.NothingIsSentAfterLeaving` | src-tauri/src/sftp_transfer.rs:1189-1228 | After cancellation is observed, or any way out, no WRITE is issued |
| `UploadStream.WaitingMeansFull` | src-tauri/src/sftp_transfer.rs:1193-1222 | Over every run, whenever a stream waits for an acknowledgement the pipeline holds its full depth or the whole source has been sent |
| `UploadStream.RunsAreBounded` | src-tauri/src/sftp_transfer.rs:1186-1262 | Every run ends: steps, including the server's, are bounded by five per source byte plus four |
| `UploadStream.NeverStuck` | src-tauri/src/sftp_transfer.rs:1186-1262 | Until a run is over some step other than a cancellation or a failure is possible |
| `UploadOutcomes.OutcomesComeFromEvents` | src-tauri/src/sftp_transfer.rs:1222-1262 | Over every run, from its events alone: the cancellation error iff it saw its token cancelled and left in order, the byte count iff it left in order without, a failure iff a failed local read or WRITE is among the events, and no other end |
| `UploadLoop.Reader.Read` | src-tauri/src/sftp_transfer.rs:1269-1279 | The reader the fill loop is given: any non-empty amount, nothing only at its end |
| `UploadLoop.ReadFill` | src-tauri/src/sftp_transfer.rs:1269-1279 | Whatever short reads the reader makes, the buffer is filled with the reader's next bytes, or with all that is left |
| `UploadLoop.AppliedWritesMatch` | src-tauri/src/sftp_transfer.rs:1173-1181 | In whatever order WRITEs are applied, every applied one is intact in the remote file |
| `UploadLoop.AcknowledgedPrefixIsDurable` | src-tauri/src/sftp_transfer.rs:1234-1238 | At every point, also after a cancel or a failed write, the server's bytes from the base equal the first transferred local bytes, whatever order unacknowledged writes landed in |
| `UploadLoop.HistoryIsARun` | src-tauri/src/sftp_transfer.rs:1186-1240 | The successive await points of the loop are a run of the machine, each as its turn of the environment dictates |
| `UploadLoop.FillPipeline` | src-tauri/src/sftp_transfer.rs:1193-1217 | The fill loop, with its reused buffer, takes exactly the machine's steps until the pipeline is full, the reader is empty or the stream leaves |
| `UploadLoop.AwaitAck` | src-tauri/src/sftp_transfer.rs:1222-1239 | One acknowledgement, cancellation or drained pipeline, as the machine's step; the acknowledged count grows by that write's length |
| `UploadLoop.UploadViaRaw` | src-tauri/src/sftp_transfer.rs:1138-1262 | The loop terminates as a run whose every await point the environment dictates; it returns the cancellation error, the byte count or a failure exactly when the events say so; whatever the outcome the acknowledged prefix is on the server, and after a success that is every byte of the reader |
| `ParallelUpload.LandKeepsFile` | src-tauri/src/sftp_transfer.rs:932-958 | A WRITE applied for any stream, at any time, disturbs no applied WRITE and no acknowledged prefix of any stream |
| `ParallelUpload.TruncationComesFirst` | src-tauri/src/sftp_transfer.rs:932-958 | Over every run the probe stream's truncating open happens once, empties the file, and precedes every other open and every stream's steps |
| `ParallelUpload.EveryWorldIsOk` | src-tauri/src/sftp_transfer.rs:1000-1123 | Streams, remote file, tokens and progress satisfy their invariants in every reachable state of every interleaving |
| `UploadTheorems.UploadSegmentsCopies` | src-tauri/src/sftp_transfer.rs:1000-1123 | For every interleaving and write order, success means the count is the total and the remote file, whatever it held before, equals the first total local bytes |
| `UploadTheorems.CleanUploadsSucceedIffFileIsWhole` | src-tauri/src/sftp_transfer.rs:1092-1122 | Without failures or cancellation the driver succeeds if and only if the local file still has total bytes |
| `UploadTheorems.AcknowledgedBytesAreDurable` | src-tauri/src/sftp_transfer.rs:1000-1123 | At every point every segment's acknowledged prefix and every applied WRITE are in the remote file, and nothing is sent before the truncation |
| `UploadTheorems.WritesNeverOverlap` | src-tauri/src/sftp_transfer.rs:1060-1091 | Any two different WRITEs of a run are disjoint and stay inside their own segments |
| `UploadTheorems.UploadFailuresAreGenuine` | src-tauri/src/sftp_transfer.rs:1059-1118 | Over every run the caller never cancels, any failed stream surfaces as a stream failure |
| `UploadTheorems.UploadProgressIsHonest` | src-tauri/src/sftp_transfer.rs:1030-1122 | The aggregate is the sum of the reported positions and at most the total; with the closing report the values never fall or pass the total, and a success ends on the total |
| `UploadTheorems.DueReportsAreEmitted` | src-tauri/src/sftp_transfer.rs:1030-1056 | Over every run a stream reports on entry, on leaving in order and, when its interval has passed, on an acknowledgement, and then and only then its acknowledged bytes are noted and, when due, the new sum emitted |
| `UploadVerdicts.StreamsRunTheirMachines` | src-tauri/src/sftp_transfer.rs:1059-1091 | Seen alone, each stream of a parallel upload is a run of the single-stream machine |
| `UploadVerdicts.UploadVerdictsComeFromEvents` | src-tauri/src/sftp_transfer.rs:1059-1118 | Over every run the upload reports the cancellation iff the caller cancelled and no stream has a failing event, and a cause's failure iff that is the failure of the first stream with one |
| `UploadTheorems.SingleUploadCopies` | src-tauri/src/sftp_transfer.rs:830-900 | The single-stream path, which checks no count: a success has replaced the remote file by the local one |
| `UploadEndings.AbortedIffCancelledOrFailed` | src-tauri/src/sftp_transfer.rs:1059-1091 | In every reachable world the streams find their token cancelled if and only if the caller has cancelled or some stream has failed |
| `UploadEndings.OnlyRefillsAfterAbort` | src-tauri/src/sftp_transfer.rs:992-998 | Once that is so a stream in the middle of refilling can issue at most the WRITEs its pipeline still takes, and every other stream none, however the run goes on |
| `UploadEndings.ParallelRunsAreBounded` | src-tauri/src/sftp_transfer.rs:1059-1091 | However the server schedules its work and the streams interleave, opens and steps together never exceed the sum of the streams' bounds plus one per stream |
| `UploadEndings.SplitUploadsAreBounded` | src-tauri/src/sftp_transfer.rs:1000-1091 | For a split that is five times the total plus five per stream |
| `UploadEndings.ParallelNeverStuck` | src-tauri/src/sftp_transfer.rs:1059-1091 | In every world satisfying the invariant all streams have ended if and only if no step is possible but cancellations, failing acknowledgements and applied WRITEs nobody waits for |
| `UploadLiveness.OpenHandles` | src-tauri/src/sftp_transfer.rs:932-958 | The handles can always be opened in the required order |
| `UploadLiveness.SuccessIsReachable` | src-tauri/src/sftp_transfer.rs:1000-1123 | For every local file, every split and whatever the remote file held, some schedule of streams and server ends in success |
| `PtySessions.ApplyKeepsInv` | src-tauri/src/connection_manager.rs:417-490 | Every manager call keeps: no id has both an active and a detached session, the stored generation is the counter's, generations are unique per id, a session is held by exactly one registry or cancelled |
| `PtySessions.EveryManagerIsOk` | src-tauri/src/connection_manager.rs:417-823 | The same over every sequence of manager calls |
| `PtySessions.ReattachReturnsTheParkedSession` | src-tauri/src/connection_manager.rs:417-440 | A reattach returns the session that was parked, not dead, under the generation it was created with |
| `PtyEffects.StartsReattachIffParkedAlive` | src-tauri/src/connection_manager.rs:417-490 | Over every run a start hands the parked session back iff there is one not known to be dead, and then nothing else changes for it or any other connection; a new shell, a dead session and a failure each in exactly the stated case |
| `PtyEffects.SessionsEndExactly` | src-tauri/src/connection_manager.rs:417-823 | In every reachable manager a call cancels a session iff it is one of the listed endings: its dead parking found, its replacement, its own generation's close or detach when dead, its due expiry, its connection's close or eviction |
| `PtyEffects.SessionsParkExactly` | src-tauri/src/connection_manager.rs:417-823 | In every reachable manager a session is parked after a call iff the call was its own generation's detach, or it was parked and the call neither ended it nor was a start; every other uncancelled one is attached |
| `PtyEffects.ConnectionsChangeExactly` | src-tauri/src/connection_manager.rs:208-300 | A connect registers a client no connection has; a client goes iff its connection is closed, evicted through it, or found dead by a start |
| `PtyEffects.GenerationsCountShells` | src-tauri/src/connection_manager.rs:440-490 | A connection's generation grows by one exactly with each shell opened for it, which is recorded under it; only a closed channel makes a session dead |
| `PtyEffects.ExpiryIsDue` | src-tauri/src/connection_manager.rs:649-667 | A timer expires a session iff it has been parked for the grace period, and otherwise changes nothing |
| `PtySessions.FreshStartsGetFreshGenerations` | src-tauri/src/connection_manager.rs:440-490 | A start that opens a shell gets a generation no session of that id ever had and cancels the one attached before |
| `PtySessions.DeadSessionsAreNotParked` | src-tauri/src/connection_manager.rs:553-637 | Over every run and whatever the next call, a parked entry is either left as it was or is the attached, not dead, session of its id, just parked by that id's own detach under the generation it was created with |
| `PtySessions.CloseTouchesOnlyItsGeneration` | src-tauri/src/connection_manager.rs:799-823 | A Close carrying g changes something if and only if the attached session was created as g, and then removes and cancels only it |
| `PtySessions.DetachTouchesOnlyItsGeneration` | src-tauri/src/connection_manager.rs:553-637 | A Detach carrying g changes something if and only if the attached session was created as g; then it is parked under g, or cancelled when dead, and nothing else in the manager changes |
| `PtySessions.LateEvictionsNeedTheSameClient` | src-tauri/src/connection_manager.rs:496-507 | A late eviction through a client seen some calls ago changes something if and only if that client has stayed registered at every point in between |
| `PtySessions.StaleEvictionsSpareRecreatedConnections` | src-tauri/src/connection_manager.rs:496-524 | Over every run, once the connection has been created again, evicting through the old client leaves connection, session and transfers, the whole manager, untouched |
| `PtySessions.EvictionIsComplete` | src-tauri/src/connection_manager.rs:496-524 | In every reachable manager a matching eviction leaves the id without client and transfers, cancels every session ever created for it except one that is parked, and leaves every other connection's client, sessions, flags and transfers as they were |
| `PtyTransfers.TokensAreOk` | src-tauri/src/connection_manager.rs:312-364 | In every reachable manager a registered transfer's token was handed out, is registered under one key only and is not cancelled |
| `PtyTransfers.RegisteredTokensAreNew` | src-tauri/src/connection_manager.rs:312-323 | The token a registration hands out is no other transfer's and has never been cancelled, over every run |
| `PtyTransfers.TransfersEndWithTheirConnection` | src-tauri/src/connection_manager.rs:352-364 | In every reachable manager a call cancels a running transfer if and only if it tears down that transfer's connection, whichever call it is |
| `PtyTransfers.FinishedTransfersAreNeverCancelled` | src-tauri/src/connection_manager.rs:326-331 | A transfer that has finished is never cancelled by anything that follows, also when its key is used again |
| `PtySessions.ParkedContinuously` | src-tauri/src/connection_manager.rs:553-667 | Every parked session has been parked without interruption since the detach that stamped it |
| `PtySessions.ExpiryRespectsTheGracePeriod` | src-tauri/src/connection_manager.rs:649-667 | However stale the timer, an expired session had been parked without interruption for at least the grace period |
| `PtyManager.ConnectionManager.TakeDetachedSession` | src-tauri/src/connection_manager.rs:536-547 | Removes the parked session, returning it unless dead, in which case it is cancelled |
| `PtyManager.ConnectionManager.StartPtyConnection` | src-tauri/src/connection_manager.rs:417-490 | Answers as stated for starts; a live parked session is put back and nothing else changes; the method is the start call of the state machine and keeps its invariant |
| `PtyManager.ConnectionManager.InstallSession` | src-tauri/src/connection_manager.rs:467-489 | The new session replaces and cancels the attached one under the next generation |
| `PtyManager.ConnectionManager.EvictDeadConnection` | src-tauri/src/connection_manager.rs:496-524 | The method is the eviction call |
| `PtyManager.ConnectionManager.DetachPtyConnection` | src-tauri/src/connection_manager.rs:553-637 | The method is the detach call, and keeps the invariant |
| `PtyManager.ConnectionManager.ClosePtyConnection` | src-tauri/src/connection_manager.rs:799-823 | The method is the close call, and keeps the invariant |
| `PtyManager.ConnectionManager.ExpireDetachedSession` | src-tauri/src/connection_manager.rs:649-667 | Expires iff the session has been parked for the grace period; the method is the expiry call and keeps the invariant |
| `PtyManager.ConnectionManager.CancelAllConnectionTransfers` | src-tauri/src/connection_manager.rs:352-364 | The loop removes exactly the connection's transfer tokens and cancels them |
| `PtyManager.ConnectionManager.CloseConnectionById` | src-tauri/src/connection_manager.rs:276-300 | The method is the connection-closing call, and keeps the invariant |
| `PtyManager.ConnectionManager.CloseDetachedSession` | src-tauri/src/connection_manager.rs:709-719 | The method is the call that closes a detached session and its connection, and keeps the invariant |
| `PtyManager.ConnectionManager.RegisterTransferJob` | src-tauri/src/connection_manager.rs:312-323 | Stores a token under the transfer's key that no stored transfer has and that is not cancelled |
| `PtyManager.ConnectionManager.FinishTransferJob` | src-tauri/src/connection_manager.rs:326-331 | Removes the transfer's token without cancelling it |
| `SocksLifecycle.StepKeepsInv` | src-tauri/src/connection_manager.rs:1104-1250 | Every lock-guarded step keeps: an entry belongs to a supervisor that has not run its exit cleanup, is not cancelled, and its join handle is its own generation's; generation numbers are never shared |
| `SocksLifecycle.EveryWorldIsOk` | src-tauri/src/connection_manager.rs:1104-1260 | The same over every interleaving of starts, stops, cleanups and supervisor exits |
| `SocksLifecycle.CleanupRemovesOnlyItsGeneration` | src-tauri/src/connection_manager.rs:1169-1183 | A supervisor's exit removes the entry of its own generation and nothing else |
| `SocksLifecycle.OrphansComeFromOverwriting` | src-tauri/src/connection_manager.rs:1146-1165 | A step leaves an unfinished uncancelled listener without an entry if and only if it inserts over an existing entry |
| `SocksRestarts.EveryHandleComes` | src-tauri/src/connection_manager.rs:1198-1208 | In every reachable state an entry has its listener's join handle or the start that is about to store it is still under way |
| `SocksRestarts.SerialRemovalsFindTheHandle` | src-tauri/src/connection_manager.rs:1127-1137 | When starts of one id do not overlap, the entry a restart removes always carries its own listener's handle |
| `SocksRestarts.DoneIffCleanedUp` | src-tauri/src/connection_manager.rs:1169-1183 | Over every run a supervisor is done if and only if its exit cleanup is among the steps taken: no later start, insertion or spawn revives it |
| `SocksRestarts.RemovedListenerIsDoneIffItExits` | src-tauri/src/connection_manager.rs:1127-1140 | Over such runs the restart waits for the listener it removed; after a wait that did not time out that listener is done, and after any wait it is done if and only if its exit cleanup ran between the removal and the end of the wait |
| `SocksRestarts.StartsMeetOnlyListenersLetGo` | src-tauri/src/connection_manager.rs:1122-1144 | Over such runs, once a start has waited, an older listener of its id is still unfinished if and only if it had been let go (by a stop, a cleanup or a wait that ended too early) and its exit cleanup has not run |
| `SocksRestarts.TimedOutRestartLeavesBothRunning` | src-tauri/src/connection_manager.rs:1131-1140 | A run whose starts never overlap, in which a restart's wait times out and both listeners run |
| `SocksRestarts.StartAfterStopLeavesBothRunning` | src-tauri/src/connection_manager.rs:1216-1234 | A run whose starts never overlap, in which a start right after a stop has nothing to wait for and both listeners run |
| `SocksLifecycle.OrphansAreForever` | src-tauri/src/connection_manager.rs:1129-1137 | A listener that has lost its entry is never cancelled by any later stop, restart or cleanup |
| `SocksLifecycle.OverlappingStartsLoseAListener` | src-tauri/src/connection_manager.rs:1104-1165 | Two overlapping starts of one id, each on its own port, do lose a listener |
| `SocksLifecycle.SerialStartsLoseNothing` | src-tauri/src/connection_manager.rs:1104-1210 | When starts of one id do not overlap, every running uncancelled listener has an entry, over whole runs |
| `SocksLifecycle.StopReachesEveryListener` | src-tauri/src/connection_manager.rs:1216-1234 | Then stopping an id cancels every listener it still has |
| `SocksLifecycle.CleanupMissesNothing` | src-tauri/src/connection_manager.rs:1242-1260 | Whatever interleaves with it, a finished cleanup leaves no entry of any listener that served the connection when it began |
| `SocksCleanups.VictimsServedTheConnection` | src-tauri/src/connection_manager.rs:1244-1251 | Whatever interleaves, a cleanup still has to visit exactly the proxies that served its connection when it began and that it has not visited |
| `SocksCleanups.CleanupSparesOthers` | src-tauri/src/connection_manager.rs:1242-1260 | A proxy of another connection survives the whole cleanup, its listener uncancelled, unless something else touches its entry |
| `SocksLifecycle.CleanupHitsOthersIffIdMoved` | src-tauri/src/connection_manager.rs:1253-1257 | A cleanup's turn cancels a proxy of some other connection if and only if the id it noted now belongs to one |
| `SocksLifecycle.CleanupStopsAMovedProxy` | src-tauri/src/connection_manager.rs:1242-1260 | A run whose starts never overlap in which a cleanup stops another connection's proxy |
| `SocksManager.SocksProxies.RemoveOld` | src-tauri/src/connection_manager.rs:1130-1137 | The restart's removal: takes the entry out, cancels it and returns the handle to wait for |
| `SocksManager.SocksProxies.InsertEntry` | src-tauri/src/connection_manager.rs:1146-1165 | The new entry, with no handle yet, replaces whatever the id had |
| `SocksManager.SocksProxies.Backfill` | src-tauri/src/connection_manager.rs:1198-1208 | The join handle is stored only on the entry of its own generation |
| `SocksManager.SocksProxies.SupervisorExit` | src-tauri/src/connection_manager.rs:1172-1183 | The exit step on the map |
| `SocksManager.SocksProxies.Stop` | src-tauri/src/connection_manager.rs:1216-1234 | Removes and cancels the entry; reports whether there was one |
| `SocksManager.SocksProxies.CleanUp` | src-tauri/src/connection_manager.rs:1242-1260 | Uninterrupted, exactly the entries of other connections stay, unchanged, and exactly the connection's listeners are newly cancelled |
| `Calendar.DayNumberIsMonotone` | src-tauri/src/sftp_client.rs:648-661 | The reference day count orders valid Gregorian dates strictly, so no two dates share a day |
| `Calendar.DaysToYmd` | src-tauri/src/sftp_client.rs:648-661 | The closed form gives the valid date whose day number is the argument, for every integer day, with no unsigned underflow |
| `Calendar.DaysToYmdInverts` | src-tauri/src/sftp_client.rs:648-661 | The day number inverts it the other way: days and valid dates are in bijection |
| `Calendar.YearByLoop` | src-tauri/src/commands.rs:3403-3413 | The year loop ends with the year the day falls in and the days left inside it |
| `Calendar.MonthByLoop` | src-tauri/src/commands.rs:3415-3430 | The month loop ends with the month the day falls in and the days left inside it |
| `Calendar.YmdByLoops` | src-tauri/src/commands.rs:3403-3430 | The subtraction loops give the same date as the closed form |
| `Timestamps.FormatUnixTimestamp` | src-tauri/src/commands.rs:3393-3440 | Both formatters print the same string for every second since the epoch |
| `Timestamps.TimestampsReadBack` | src-tauri/src/sftp_client.rs:626-646 | For every date before the year 10000 and time of day, the text of its second shows year, month, day, hours, minutes and seconds in their places, between dashes, a space and colons |
| `Timestamps.TimestampsSortAsTime` | src-tauri/src/sftp_client.rs:626-646 | Through year 9999, lexicographic order of the printed timestamps is numeric order of the seconds, and equal text means equal seconds |
| `Timestamps.TextOrderHoldsExactlyThrough9999` | src-tauri/src/sftp_client.rs:626-646 | For every instant: text order is time order for all instants up to it if and only if it lies before the year 10000 |
| `Timestamps.FiveDigitYearsSortFirst` | src-tauri/src/sftp_client.rs:626-646 | The failing case: every instant of the years 10000 to 18999 prints before every instant of the years up to 9999 |
| `TreeWalk.MatchesExclude` | src-tauri/src/commands.rs:3887-3899 | The scan answers yes iff the name is some pattern, or some stem followed by a starred pattern's extension |
| `TreeWalk.PatternsMatch` | src-tauri/src/commands.rs:3887-3899 | A pattern *.ext matches exactly the names that are some stem and .ext, any other exactly itself |
| `TreeWalk.RelativePathIsTheNames` | src-tauri/src/commands.rs:3759-3769 | Whatever the start path looks like, the computed relative path is the names below it joined by slashes |
| `TreeWalk.WalkSftp` | src-tauri/src/commands.rs:3746-3787 | The recursive walk fails if and only if a directory it reaches cannot be listed; otherwise it adds exactly the nodes below, as a multiset |
| `TreeWalk.VisitFtp` | src-tauri/src/commands.rs:3824-3855 | One turn of the stack loop: entries kept plus directories pushed account for everything below the directory popped |
| `TreeWalk.WalkFtp` | src-tauri/src/commands.rs:3822-3856 | The stack loop terminates on the count of unvisited nodes, fails in the same cases and finds the same nodes |
| `TreeTheorems.ReadableIffAllReached` | src-tauri/src/commands.rs:3753-3756 | A walk succeeds if and only if every directory reached through unexcluded directories can be listed |
| `TreeTheorems.ListingIsExact` | src-tauri/src/commands.rs:3746-3787 | The result holds exactly the nodes with no excluded name on their path, each under its names joined by slashes |
| `TreeTheorems.ListedOnce` | src-tauri/src/commands.rs:3822-3856 | With distinct names per directory no relative path occurs twice |
| `TreeTheorems.SortedOneWay` | src-tauri/src/commands.rs:3872-3881 | Results whose paths tell them apart can be sorted in only one way: directories first, then by path |
| `TreeTheorems.SortedIsDirectoriesFirst` | src-tauri/src/commands.rs:3872-3881 | The order is: no directory behind anything else, and among directories, as among the rest, no path behind a greater one |
| `Text.FirstDifferenceDecides` | src-tauri/src/commands.rs:3872-3881 | Path order is the order at the first difference, a proper prefix coming first |
| `TreeTheorems.ListingsAgree` | src-tauri/src/commands.rs:3791-3884 | The recursive and the explicit-stack listing of one remote tree, in whatever order each server lists, return the same list |
| `TreeTheorems.ListSftp` | src-tauri/src/commands.rs:3802-3810 | Walk and sort: exactly the nodes, directories first and by path within each kind, or a failure exactly when some reached directory cannot be listed |
| `TreeTheorems.ListFtp` | src-tauri/src/commands.rs:3811-3857 | The same for the FTP branch |
| `HttpConnect.FindHeaderEnd` | src-tauri/src/proxy.rs:203-208 | The index just past the first CRLFCRLF, and none if and only if there is none |
| `HttpConnect.HeaderEndIsStable` | src-tauri/src/proxy.rs:171-184 | An end found in what has arrived is the end in the whole stream |
| `HttpConnect.HttpConnect` | src-tauri/src/proxy.rs:169-200 | For every split of the proxy's bytes: closed-early iff no empty line ever comes, accepted iff the status code is 200, and leftover plus unread bytes are exactly what follows the header |
| `HttpConnect.SplitsDoNotMatter` | src-tauri/src/proxy.rs:169-200 | Two runs over one stream split differently agree on the decision and on the bytes left for the tunnel |
| `HttpConnect.AcceptedCodes` | src-tauri/src/proxy.rs:190-198 | The codes taken for 200 are 200 behind zeros and at most one plus sign, and no others |
| `HttpConnect.SecondWordDecides` | src-tauri/src/proxy.rs:188-198 | Whatever the version word and reason phrase, the second word of the status line decides |
| `HttpConnect.CodeDecides` | src-tauri/src/proxy.rs:187-198 | On the header as sent (version, code, reason, either line ending, anything behind it) it is accepted iff its code parses as 200 |
| `HttpConnect.OrdinaryAnswerIsAccepted` | src-tauri/src/proxy.rs:187-198 | HTTP/1.1 200 Connection established is accepted, whatever header fields follow |
| `HttpConnect.TunnelsOpenOn200` | src-tauri/src/proxy.rs:169-200 | A proxy that sends such a header, the blank line and more opens a tunnel iff the code is 200, however its bytes are split, and the tunnel starts behind the blank line |
| `HttpConnect.Tunnel.PollRead` | src-tauri/src/proxy.rs:39-53 | A read returns the next unread bytes, replaying parked ones before touching the socket, and nothing only at the end |
| `HttpConnect.Tunnel.ReadMany` | src-tauri/src/proxy.rs:39-53 | Any sequence of reads returns the stream in order, none lost or repeated, and all of it if reading goes on |
| `HttpConnect.OpenTunnel` | src-tauri/src/proxy.rs:107-117 | Through an HTTP proxy a tunnel exists if and only if the header accepts, and holds exactly the bytes after the first CRLFCRLF |
| `Tunnels.ConnectViaProxy` | src-tauri/src/proxy.rs:78-142 | For each kind of proxy a tunnel exists if and only if its handshake succeeds, and a reader gets exactly the bytes behind the handshake |
| `SocksWire.Socks5RoundTrip` | src-tauri/src/socks_proxy.rs:194-248 | For every host of at most 255 bytes and every port the server recovers exactly them from the client's bytes and takes exactly those bytes |
| `SocksWire.Socks4RoundTrip` | src-tauri/src/socks_proxy.rs:141-170 | SOCKS4: target recovered and exactly the request taken, if and only if the user id has no zero byte and the address is not 0.0.0.x with x non-zero |
| `SocksWire.Socks4KeepsTheTarget` | src-tauri/src/socks_proxy.rs:150-170 | The target alone is recovered if and only if the address is not 0.0.0.x with x non-zero, whatever the user id |
| `SocksWire.Socks4TakesTheRequest` | src-tauri/src/socks_proxy.rs:150-170 | Exactly when the server takes exactly the request's bytes: no zero byte in the id, or for 0.0.0.x exactly one, or none with nothing following |
| `SocksWire.Socks4LeavesTheRestOfTheId` | src-tauri/src/socks_proxy.rs:166-170 | With a zero byte in the id, what follows it is left at the front of the relayed stream |
| `SocksWire.DecisionsAreStable` | src-tauri/src/socks_proxy.rs:127-252 | Once the server has decided, later bytes change nothing and are left unread |
| `SocksWire.PrefixesAreCut` | src-tauri/src/socks_proxy.rs:194-248 | SOCKS5: no proper prefix of the client's bytes makes the server act |
| `SocksWire.Socks4PrefixesAreCut` | src-tauri/src/socks_proxy.rs:127-170 | SOCKS4: no proper prefix of the request makes the server act if and only if the user id holds no zero byte, or at most one for an address 0.0.0.x |
| `SocksWire.HandshakeAgrees` | src-tauri/src/proxy.rs:211-312 | Client and server together: the client connects if and only if the channel opened, both take exactly the handshake's bytes, relay bytes stay untouched |
| `SocksWire.Handshake4Agrees` | src-tauri/src/proxy.rs:320-357 | For every SOCKS4 address and user id the client connects if and only if the status is 0x5a and takes exactly the reply; the server recovers the target and takes exactly the request if and only if the id holds no zero byte and the address is not 0.0.0.x |
| `SocksPeers.AnyClientIsServed` | src-tauri/src/socks_proxy.rs:194-248 | The server against any SOCKS5 client offering no authentication among its methods: an IPv4, IPv6 or named target and its port are recovered and exactly the client's bytes taken |
| `SocksPeers.OtherClientsAreRefused` | src-tauri/src/socks_proxy.rs:194-252 | Refused with the right reply: no acceptable method, another command, an unknown address type |
| `SocksPeers.NamedClientIsServed` | src-tauri/src/socks_proxy.rs:150-170 | A SOCKS4a client's name is recovered and exactly its bytes taken |
| `SocksPeers.NumericClientIsServed` | src-tauri/src/socks_proxy.rs:136-170 | A SOCKS4 client's address is the target and exactly its bytes are taken iff the address is not 0.0.0.x with x non-zero, for ids without a zero byte |
| `SocksPeers.ClientLearnsOfTheChannel` | src-tauri/src/socks_proxy.rs:254-274 | This client through this server connects iff the channel opened, and is told 2, 5 or 1 for a prohibited, a refused or any other failed channel |
| `SocksPeers.Client4LearnsOfTheChannel` | src-tauri/src/socks_proxy.rs:172-190 | A SOCKS4 client through this server connects iff the channel opened, and is told 0x5b otherwise |
| `SocksPeers.CredentialsReadBack` | src-tauri/src/proxy.rs:244-262 | A server of RFC 1929 reads exactly the first 255 bytes of user name and password from the client's message |
| `SocksPeers.ClientMeetsAnyProxy` | src-tauri/src/proxy.rs:211-312 | The client against any accepting proxy, with or without authentication and bound to an IPv4, IPv6 or named address: it sends exactly what it must, takes exactly the proxy's bytes and connects iff the reply code is zero |
| `SocksPeers.ConclusionsAreStable` | src-tauri/src/proxy.rs:211-312 | Once the client has concluded, later bytes change nothing and are left for the tunnel |
| `SocksPeers.ClientWaitsForAll` | src-tauri/src/proxy.rs:211-312 | On no proper prefix of an accepting proxy's bytes does the client act |
| `SocksPeers.ClientGivesUp` | src-tauri/src/proxy.rs:232-275 | Credentials turned down, another method, another version and an overlong host name each end the handshake with their own error |
| `SocksPeers.Socks4AnswersDecide` | src-tauri/src/proxy.rs:348-357 | A SOCKS4 client takes eight bytes and connects iff they begin with 0 and 0x5a |
| `SocksEndpoints.ReadUntilNull` | src-tauri/src/socks_proxy.rs:15-25 | Takes everything up to and including the first zero byte, or fails at the end of the stream |
| `SocksEndpoints.Handle` | src-tauri/src/socks_proxy.rs:127-252 | The server's parsing code replies, consumes and decides as specified, for every input |
| `SocksEndpoints.HandleConnection` | src-tauri/src/socks_proxy.rs:127-279 | Parse, open the channel, answer: the relay starts iff a target was parsed and its channel opened, and the answer is the channel's |
| `SocksEndpoints.Socks5Connect` | src-tauri/src/proxy.rs:211-312 | The client's code sends, consumes and concludes as specified, for every server answer, including credentials cut to 255 bytes |
| `SocksEndpoints.Socks4Connect` | src-tauri/src/proxy.rs:320-357 | The SOCKS4 client likewise |
| `ListingRoundTrip.LineSplits` | src-tauri/src/ls_parser.rs:41-41 | A well-formed row printed as a line splits back into its columns |
| `ListingRoundTrip.LongIsoRoundTrip` | src-tauri/src/ls_parser.rs:35-119 | Printing a long-iso row, with or without group or context, and parsing the line returns its name, size, type, permissions, owner, group and date, or nothing for the two dot entries |
| `ListingRoundTrip.LongIsoRowParses` | src-tauri/src/ls_parser.rs:35-119 | The same for every other spacing of the columns |
| `ListingRoundTrip.MonthRoundTrip` | src-tauri/src/ls_parser.rs:35-184 | Printing and parsing a month row returns its entry if and only if no pair of tokens in its name looks like a long-iso date and it is not a dot entry |
| `ListingRoundTrip.MonthRowParses` | src-tauri/src/ls_parser.rs:35-184 | The same for every other spacing |
| `ListingRoundTrip.FtpMonthRoundTrip` | src-tauri/src/ftp_client.rs:446-531 | Printing any month row and parsing the line with the FTP parser returns the same entry |
| `ListingRoundTrip.FtpMonthRowParses` | src-tauri/src/ftp_client.rs:446-531 | The same for every other spacing |
| `ListingRoundTrip.MonthRowShowsItsDate` | src-tauri/src/ftp_client.rs:602-650 | What a month row's date is turned into shows its own year (or the current one), month, day, hour and minute in their places |
| `ListingRoundTrip.PrintedModesAreAccepted` | src-tauri/src/ls_parser.rs:123-146 | Every mode ls prints, with set-user, set-group and sticky bits and an optional mark, is taken by both parsers as a mode of its kind of file |
| `ListingRoundTrip.MonthsAreNumbered` | src-tauri/src/ls_parser.rs:252-268 | The twelve abbreviations are the months one to twelve |
| `ListingRoundTrip.IsoColumnsAreNumbers` | src-tauri/src/ls_parser.rs:186-207 | A long-iso date is exactly four, two and two digits with dashes, a long-iso time exactly two and two with a colon |
| `ListingRoundTrip.TimeOrYearIsNumbers` | src-tauri/src/ls_parser.rs:235-247 | The third column of a month date is exactly a four-digit year or two numbers with a colon between them |
| `ListingRoundTrip.DatePrints` | src-tauri/src/ls_parser.rs:252-285 | A printed month date is recognised as one and reads back as the same instant, with the current year for recent files |
| `ListingRoundTrip.NothingBeforeTheDate` | src-tauri/src/ls_parser.rs:166-184 | No token before the date columns is taken for a date |
| `ListingRoundTrip.NameReadsBack` | src-tauri/src/ls_parser.rs:66-81 | The name comes back, and a symlink's target is cut off at the right arrow |
| `FtpLines.ModesAgree` | src-tauri/src/ftp_client.rs:535-555 | The FTP parser's permission test and the other one accept the same tokens |
| `FtpLines.FindersAgree` | src-tauri/src/ftp_client.rs:475-477 | Both parsers find the same date triple in every token list |
| `FtpLines.DatesAgree` | src-tauri/src/ftp_client.rs:602-650 | Both conversions of a date triple give the same text, for every three tokens and year |
| `FtpLines.FtpReadsTheMonthLayout` | src-tauri/src/ftp_client.rs:446-531 | On every line the FTP parser, with its own tests and its own search for the size, returns the month-layout entry of the other parser's functions |
| `ListingRoundTrip.ParsersAgree` | src-tauri/src/ftp_client.rs:446-531 | On every line without a long-iso pair the two parsers differ on the dot entries only |
| `ListingRoundTrip.WordsOfSpaced` | src-tauri/src/ls_parser.rs:41-41 | Tokens printed with single spaces come apart again |

## Left out

- The transport: russh, TLS, sockets, tokio scheduling, timeouts and keep-alives. Servers, peers and cancellation are nondeterministic instead.
- Local buffering: writes of the download's buffered writer reach the file at once, and a failed local write stores nothing of its block. When buffered bytes reach the disk before the final flush is not modelled.
- A request counts as issued when it enters the pipeline's queue; that a queued request may be dropped before it is sent is covered by servers that never apply it.
- The fallback to a single stream when opening the extra streams fails, opening the local readers of an upload before the streams start, and the best-effort fsync and close.
- The throttle's clock: whether a progress report passes it is a free choice (`due`, `timer`).
- Reading the environment overrides of the stream counts, and the link probe: counts and limits are parameters.
- `cancel_transfer_by_id`, pending-connect slots, the OS information cache, and the background drain of a detached session.
- PTY start, close and detach interleaved per lock: each manager method is one step, because the generation check and the removal are under different locks and the claims are not meant to hold between them.
- PtySessions.StartPty: sessions, clients and tokens are identifiers with sets of dead and cancelled ones instead of shared objects with flags, so sharing of the session object itself is not modelled.
- SOCKS: removing an entry and cancelling its token, which the restart does right after releasing the lock with no await in between, is one step; the port binding succeeds or fails freely.
- Calendar.DaysToYmd: 64-bit overflow of the day count and of the system time is not modelled; the arithmetic on the unsigned 32-bit intermediates is shown not to underflow.
- TreeWalk.WalkSftp: names are non-empty and contain no slash, as servers list them; entries carry the same size, kind and modification text in both listings, although the two protocols print times with different precision.
- The local directory walk of the synchronisation dialog, which reads the local file system.
- HttpConnect.HttpConnect: the request line and its base64 credentials are not modelled, nor are read errors told apart from an early close; the lossy decoding of header bytes to text is a parameter.
- SocksWire: addresses are recovered as bytes; printing an IP address and the lossy decoding of a host name (the identity on valid UTF-8) are not modelled.
- ListingLines.ParseLs: runs of spaces inside names, month-like owner or group names, and a context without a group are outside the round trips; the current year is a parameter.
- The SOCKS relay after the handshake, RDP and VNC desktops, the updater, credential sealing and all user-interface code.
