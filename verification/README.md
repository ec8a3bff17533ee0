# netpull: a verified model

netpull pulls a directory tree from a server to a client over a local network, checks every file's
digest, and can resume a pull after either side was lost. This project models that protocol and the
parts it rests on, and proves what it promises on every schedule and every run.

The model has four layers.

* **The pull protocol.** `ServerSession` is one server session: the thread that crawls and sends, and
  its hash tasks. `ClientSession` is one client: the thread that reads messages and creates objects,
  its stream tasks, and the integrity tasks those submit. `Protocol` puts any number of sessions
  beside one server process with its job table, ticket table and log directory; its actions are single
  critical sections, message deliveries, losses, restarts that leave any first part of any log, and
  lost clients, in any order. `ProtocolInvariant` proves what every step keeps; `ProtocolResults`,
  `ProtocolResume` (what a session skips and announces), `ProtocolCopies` (the clients' disks),
  `ProtocolLogs` (torn logs) and `ProtocolProgress` draw the conclusions; `ProtocolScenario` takes one
  run from the start to where the code fails its purpose.
  `JobLog` is the log file against the table, `Guarded` the shared maps and sets.
* **The worker pool.** `WorkerPool` has one transition per critical section, a forest that says which
  task submits which, and the pool as an object whose methods are proved to make those transitions.
* **The crawl.** `FastCrawler` refines a recursive enumeration by a queue of directories; `Path` is the
  string arithmetic it uses, `Strings` splitting and joining.
* **The rest.** `Console` (log output above retained lines, on a modelled terminal), `Utf8`,
  `ProgressBuilder`, `Socket` (framing under short reads and writes), `Streaming` (`sendfile`, the
  nested `splice` loops and the shared byte counter), `Ip`.

System calls fail, fall short or succeed in any combination. SHA-256, ids and message encoding are
parameters: a total function, a fresh-id source, and a codec that round-trips.

`dafny verify dfyconfig.toml` checks everything.

## Where the code departs from its intent

The model keeps the code as it is; each of these has a lemma that says exactly when the intended
property holds.

* A client whose digest computation fails skips the comparison and reports success
  (netpull/client/netpull_client.cc:133). `ProtocolResults.CheckIsEvidenceExactly` gives the exact
  condition for one check, `ProtocolResults.RecordedIsVerified` the consequence for whole runs, and
  `ProtocolScenario.MissingDigestIsReachable` a run in which it happens.
* A server whose digest computation fails, or that cannot read a file, sends no message about it
  (netpull/server/netpull_server.cc:214-226), so a client's empty list of incomplete paths does not by
  itself mean that the tree was pulled: `ProtocolResults.ReportCoversTree`.
* A newline in a file name corrupts the job log, and can complete any other path:
  `JobLog.CompletionReadsBackExactly`, `JobLog.NewlineCompletesAnotherPath`. For whole runs:
  `ProtocolLogs.LogsAreMade` with such names, `ProtocolResults.RecordedIsBacked` without.
* A log whose last line is torn is loaded all the same (netpull/server/netpull_server.cc:115-142). The
  torn line can add a path that was never completed (`JobLog.CutReadsBackExactly`), or cut the job's
  own path short (`JobLog.HeaderCutReadsBack`, and `JobLog.CutHeaderLoadsExactly` for when that is
  refused); and the next completion is written behind it, where it
  is lost and can become part of yet another path: `JobLog.CompletionIsRecordedExactly`,
  `JobLog.CompletionReadsBackExactly`, `JobLog.TornLine`. For whole runs:
  `ProtocolLogs.AnyFirstPartCanBeRecorded` for what a crash can do, `ProtocolLogs.RecordedIsTorn` for
  all it can do, `ProtocolResults.RecordedIsBacked` for runs in which it does not happen.
* `IsChildOf` compares characters and `RelativeTo` drops one more: `Path.JoinUndoesRelativeToExactly`,
  `Path.SiblingIsTakenForChild`.
* A pull of "/" from a server of "/" joins to the empty path, on which the crawler's assertion aborts
  the server (netpull/server/fast_crawler.cc:49): `Path.JoinResolvedExactly`,
  `ProtocolProgress.SlashIsNeverServed`; every other pull can end, `ProtocolProgress.PullEnds`.
* The size field of a transfer is an int32, so a file arrives whole exactly below 2 GiB:
  `Streaming.SizeArrivesExactly`, `Streaming.Pull`. A frame's size is taken modulo 2^32:
  `Socket.FrameReadsBackExactly`.
* The UTF-8 loop never ends on a stray or cut character: `Utf8.EndsExactly`.
* The progress line is as wide as the screen allows from 17 columns on
  (`ProgressBuilder.NeedsWhatThereIsExactly`), and is cut wrongly where the item space is narrower than
  its last character and the dots (`ProgressBuilder.ElisionExactly`). It overruns its buffer when
  characters without width add enough bytes, on any screen, and with ordinary characters on a terminal
  of four or five columns: `ProgressBuilder.UncutIsSafeExactly`, `ProgressBuilder.CutIsSafeExactly`,
  `ProgressBuilder.OrdinaryIsSafeExactly`, `ProgressBuilder.NarrowScreenOverruns`.
* Lines on the console must be single lines: `Console.RedrawIsStableExactly`.

## Model

| member | source | states |
|---|---|---|
| ProtocolResults.RecordedIsBacked | netpull/client/netpull_client.cc:118-155 | on every run in which no crash tore the job's log and no line break was written to it, crashes that lose last lines included, whatever its log or the table records is a regular file of that job's tree for which a client has compared its own copy's digest with the announced one, or had none to compare |
| ProtocolResults.SpoiledFrom | netpull/server/netpull_server.cc:115-158 | a job counts as torn or broken exactly if an action of the run tore its log or wrote a line break to it |
| ProtocolLogs.RecordedIsTorn | netpull/server/netpull_server.cc:115-158 | however often crashes tear a log without line breaks, a path it records is a first part of a backed path with nothing but first parts of completion lines behind it, and the whole of one if the log was never torn |
| ProtocolLogs.LogsAreMade | netpull/server/netpull_server.cc:91-158 | on every run whatever, a log is a first part of a header and then first parts of completion lines of paths that clients of the job have checked |
| ProtocolLogs.AnyFirstPartCanBeRecorded | netpull/server/netpull_server.cc:115-158 | from any state in which a report is about to be written behind complete lines, a crash can make the log record any first part of its path |
| ProtocolLogs.StepWrites | netpull/server/netpull_server.cc:558-566 | every action keeps logs, reports in flight and checked paths of that form |
| ProtocolResults.RecordedIsVerified | netpull/client/netpull_client.cc:133-155 | a recorded path of which no check was without a digest has a read-back whose digest equals its source's |
| ProtocolResults.UnhashedFrom | netpull/client/netpull_client.cc:133-138 | a path of a job is in the unhashed evidence of a run exactly when one of its checks was without a digest |
| ProtocolResults.CheckIsEvidenceExactly | netpull/client/netpull_client.cc:133-155 | a check that ends well gets its path recorded with or without a digest, and adds a read-back exactly with one |
| ProtocolResults.ParentFirst | netpull/server/fast_crawler.cc:158-166 | on every schedule and resume, a client's message assertions never fail, and it handles each object after its parent directory's message unless the job's log was spoiled |
| ProtocolResults.ReportCoversTree | netpull/client/netpull_client.cc:496-519 | after the report, the list is empty and no file was unhashable on the server exactly when every object was completed before or in this session |
| ProtocolCopies.PulledTreeIsVerified | netpull/client/netpull_client.cc:496-519 | end to end: then every file of the tree has a client's check behind it, unless a spoiled log made the server skip it, and if none of its checks was without a digest it was read back with its source's digest, by the reporting client itself if it was not skipped, on whose disk that copy still is unless another session of that address has streamed to it |
| ProtocolCopies.CopyStays | netpull/client/netpull_client.cc:114-155 | on every run, what a check read back stays on that client's disk byte for byte until another session of its address streams to the path |
| ProtocolCopies.StepCopies | netpull/client/netpull_client.cc:118-144 | every action keeps read-backs tied to the completed file of the session that made them |
| ProtocolProgress.PullEnds | netpull/client/netpull_client.cc:476-519 | on every schedule, a session other than of "/" on a server of "/" in which nothing more can happen, with both sides alive and no connection lost, has sent everything and closed, and its client has read all and reported, or been told that the path is refused |
| ProtocolProgress.SlashIsNeverServed | netpull/server/netpull_server.cc:410-431 | on no run is anything but `Started` sent for a pull of "/" from a server of "/" |
| ProtocolScenario.MissingDigestIsReachable | netpull/client/netpull_client.cc:133-155 | on every server that serves a file first, a run from the start records that file although no digest was ever compared for it |
| ProtocolScenario.OneFileServer | netpull/server/netpull_server.cc:434-435 | such a server exists |
| ProtocolResume.DeliveredIsNotSentAgain | netpull/server/netpull_server.cc:103-158 | end to end: a completion delivered behind complete lines is in no message of any later session of the job, whatever runs, reports, resumes, restarts and lost clients come between, short of a crash that takes its line from the log |
| ProtocolResume.ResumeSkipsRecorded | netpull/server/netpull_server.cc:313-318 | on every run, a path that is in the job's table entry when a session starts is in no message of that session, ever |
| ProtocolResume.AnnouncementsAreExact | netpull/server/netpull_server.cc:320-388 | on every run, each object message is about one object of the tree that was not recorded when the crawl reached it: its path, its kind, the digest and size of its content exactly for a regular file, and as its number its place among such objects |
| ProtocolResume.TotalIsExact | netpull/server/netpull_server.cc:425-431 | the total sent at the end is the number of objects of the tree that were not recorded when the crawl reached them |
| ProtocolResume.UnrecordedIsAnnounced | netpull/server/netpull_server.cc:313-388 | each of them has its message by then, unless it is a file the server could not hash |
| ProtocolResume.SkippedFrom | netpull/server/netpull_server.cc:313-318 | an object is skipped by a session exactly if the crawl came past it while it was in the table |
| ProtocolResume.StartBegins | netpull/server/netpull_server.cc:519-545 | which starts are taken, and the log, table entry and session each begins with |
| ProtocolResume.ResumeBegins | netpull/server/netpull_server.cc:530-545 | a resume is taken exactly if the job's log gives a resolved path, begins with what the log says, and leaves a job that is in the table as it is there |
| ProtocolResume.DeliveryIsKept | netpull/server/netpull_server.cc:558-566 | a delivery adds its line to the log, and behind complete lines that is read again |
| ProtocolResume.TableOnlyGrows | netpull/server/netpull_server.cc:541-566 | as long as the server runs no completion leaves the table |
| ProtocolResume.UnknownJobKeepsLog | netpull/server/netpull_server.cc:558-566 | reports for a job that is not in the table change nothing |
| ProtocolResults.ReportsAreConserved | netpull/client/netpull_client.cc:144-156 | on every run, the reports of a path that were sent are those delivered, lost and under way, each once |
| ProtocolResults.AnnouncedTicketIsReady | netpull/server/netpull_server.cc:377-384 | every id the running server has announced, read by the client or not, is in the table with the announced path and size until honoured; its client's request is honoured and no other address's has any effect |
| ProtocolResults.SourceArrives | netpull/client/netpull_client.cc:179-256 | in every reachable state a running stream task with an unused ticket can fetch its file: below 2 GiB its copy becomes the source, with the announced digest, and whatever a longer old copy had beyond it |
| ProtocolResults.ArrivesWholeExactly | netpull/client/netpull_client.cc:181 | the copy is then the source exactly if the old copy was no longer |
| ProtocolResults.NeverHonouredTwice | netpull/server/netpull_server.cc:545-557 | whatever happens in between, an id that was streamed is never streamed again |
| ProtocolResults.OldTicketsAreRefused | netpull/server/netpull_server.cc:545-557 | a ticket from before a restart gets nothing, whatever happens before and after |
| ProtocolCopies.StreamWritesSource | netpull/client/netpull_client.cc:179-256 | on every run, what a stream task leaves on disk is a first part of the content of the object its message names and then what an older copy had beyond it, and a task that ends well wrote all of the content below 2 GiB |
| ProtocolResults.PulledIsBelowRoot | netpull/server/netpull_server.cc:421 | every object of every pull has the path of the served root, the requested path and its names, however the request is written |
| ProtocolResults.PulledExactly | netpull/server/fast_crawler.cc:74-169 | an object is in a pull exactly if walking its names down from the requested path finds it |
| ProtocolResults.NothingAfterTheEnd | netpull/server/netpull_server.cc:421-431 | a lost client takes no further step, and a restart ends every session of the server |
| ProtocolResults.StepAllTickets | netpull/server/netpull_server.cc:377-384 | every step keeps tickets issued, ready or honoured, and the tickets of a live session its own |
| ProtocolInvariant.StepInv | netpull/server/netpull_server.cc:496-568 | every action of the system, whatever names are served and whatever a crash leaves of the logs, keeps the invariant that ties logs, table, reports in flight and sessions to the evidence for them |
| ProtocolInvariant.StepRecorded | netpull/server/netpull_server.cc:558-566 | a step adds to an unspoiled log only what is backed |
| ProtocolInvariant.CompletedIsFile | netpull/server/netpull_server.cc:313-318 | only files are ever found completed in an unspoiled log |
| ProtocolInvariant.SkippedIsFile | netpull/server/netpull_server.cc:313-318 | so no directory or symlink is skipped; what is skipped is in `ProtocolResume` |
| ProtocolInvariant.CheckLeavesEvidence | netpull/client/netpull_client.cc:133-138 | a check that goes on leaves evidence for the source file its message named |
| ProtocolInvariant.NextMessageIsFine | netpull/client/netpull_client.cc:484-495 | the next message of the stream passes the client's assertions |
| ProtocolInvariant.StreamDistinct | netpull/server/netpull_server.cc:310-325 | no two messages of a session name the same path |
| ServerSession.FinishedSession | netpull/server/netpull_server.cc:401-431 | a session whose Finished went out sent Started first and Finished last and once; announced, skipped and unhashable objects partition the crawl; numbers are distinct, from 1 to the total |
| ServerSession.MessagesAreExact | netpull/server/netpull_server.cc:320-388 | on every schedule, each object message has the path, kind, digest, size and ticket of one object of the crawl, and as its number that object's place among the numbered ones in crawl order |
| ServerSession.NothingAfterBreak | netpull/server/netpull_server.cc:373-388 | once the connection is lost nothing is sent |
| ServerSession.NothingSentAfterClose | netpull/server/netpull_server.cc:419-431 | once the thread has returned no hash task is left that could use its connection or mutex |
| ServerSession.StepKeepsInv | netpull/server/netpull_server.cc:310-389 | every step of crawl, hash tasks and connection keeps fates, numbers, stream and order consistent |
| ServerSession.StepAdds | netpull/server/netpull_server.cc:373-388 | a step adds to the stream nothing, or the message of one object not announced before |
| ServerSession.MessageAt | netpull/server/netpull_server.cc:320-388 | every object message of a stream is the description of an object that was numbered and, for a file, ticketed, as `ServerSession.MessagesAreExact` spells out |
| ServerSession.RunsAreBounded | netpull/server/netpull_server.cc:401-431 | every run of a session, losses of its connection aside, takes at most one step for each object, five more for each file not skipped, and three; exactly so many once `Finished` is sent |
| ServerSession.MaximalRunIsClosed | netpull/server/netpull_server.cc:401-431 | with a worker, a run that cannot go on has closed |
| ClientSession.ReportIsExact | netpull/client/netpull_client.cc:496-519 | when the key wait has returned after Finished, no task is left and the reported paths are exactly those with a failed creation, stream, check or metadata step |
| ClientSession.CrashesExactly | netpull/client/netpull_client.cc:484-495 | an assertion fails exactly on an object message before any job id, or with an absolute path |
| ClientSession.RunFates | netpull/client/netpull_client.cc:96-156 | an object is failed at the end of a run exactly if one of its steps failed |
| ClientSession.RunCompletes | netpull/client/netpull_client.cc:118-144 | an object is complete at the end of a run exactly if its check or metadata step succeeded |
| ClientSession.StepTasks | netpull/client/netpull_client.cc:179-256 | every step keeps the life of a file: one stream task, which submits one integrity task before it returns |
| ClientSession.StepToComplete | netpull/client/netpull_client.cc:276-336 | every step keeps the set equal to the paths of objects not yet complete |
| ClientSession.CheckCompletes | netpull/client/netpull_client.cc:133-144 | a check goes on to complete its file whether it compared a digest or had none |
| ClientSession.RunsAreBounded | netpull/client/netpull_client.cc:476-519 | every run is at most sixteen steps for each message read, and one |
| ClientSession.MaximalRunHasReported | netpull/client/netpull_client.cc:476-519 | a client with a worker that can only read has nothing in flight, or its reading failed and the rest is queued; if it has read `Finished` it has reported |
| WorkerPool.PendingCountsInFlight | netpull/parallel/worker_pool.cc:21-44 | in every reachable state a key's counter is the number of its tasks mid-submission, queued or running; zero means none |
| WorkerPool.WaitCoversSpawnTree | netpull/parallel/worker_pool.cc:12-86 | on every run, a key stays above zero while any task of a submitted spawn tree on it is unfinished |
| WorkerPool.ZeroMeansTreeFinished | netpull/parallel/worker_pool.cc:12-44 | at zero, every task below a prepared one has finished |
| WorkerPool.QueuedAfterDoneStays | netpull/parallel/worker_pool.cc:46-75 | after Done a key with a queued task never reaches zero |
| WorkerPool.RunsAreBounded | netpull/parallel/worker_pool.cc:83-111 | every step but Done uses up one of at most five steps per task |
| WorkerPool.QuiescentMeansFinished | netpull/parallel/worker_pool.cc:102-111 | with a worker and without Done, a pool that can make no step has finished every task and all keys are at zero |
| WorkerPool.MaximalRunLength | netpull/parallel/worker_pool.cc:77-111 | every run that cannot be extended takes exactly five steps per task, whatever the schedule |
| WorkerPool.ThreadPool.Prepare | netpull/parallel/worker_pool.cc:31-35 | makes the transition that counts a task on its key |
| WorkerPool.ThreadPool.Enqueue | netpull/parallel/worker_pool.cc:63-66 | makes the transition that queues it |
| WorkerPool.ThreadPool.WaitForTaskAndPop | netpull/parallel/worker_pool.cc:46-61 | takes a task of the highest priority, or nothing once done |
| WorkerPool.ThreadPool.RemovePending | netpull/parallel/worker_pool.cc:26-29 | makes the transition that takes a returned task off its key |
| WorkerPool.ThreadPool.Done | netpull/parallel/worker_pool.cc:68-71 | makes the transition after which nothing is taken |
| Protocol.ReadyFiles.Announce | netpull/server/netpull_server.cc:379-381 | puts the file under its fresh id, as the model's ticket step does |
| Protocol.ReadyFiles.Request | netpull/server/netpull_server.cc:546-557 | gives out the file and forgets it if the address is its client's, and otherwise changes nothing |
| Guarded.GuardedMap.Put | netpull/parallel/guarded_map.h:28-31 | inserts unless the key is present, and says which |
| Guarded.GuardedMap.GetAndPopIf | netpull/parallel/guarded_map.h:41-54 | removes and returns the accepted value, or changes nothing |
| Guarded.GuardedSet.Insert | netpull/parallel/guarded_set.h:26-29 | adds one value |
| Guarded.GuardedSet.Contains | netpull/parallel/guarded_set.h:37-40 | membership |
| JobLog.LoadLines | netpull/server/netpull_server.cc:111-140 | the reading loop computes what the log says line by line, or nothing when its path is refused, which `JobLog.LoadsExactly` spells out |
| JobLog.LoadsExactly | netpull/server/netpull_server.cc:111-142 | a log is refused exactly if the path its lines give is not "/" and has an empty, "." or ".." component behind at most one slash at the front, so also if it has no path |
| JobLog.NewReadsBackExactly | netpull/server/netpull_server.cc:91-99 | a new log reads back as its path and no completions, exactly if the path is one line |
| JobLog.CompletionReadsBackExactly | netpull/server/netpull_server.cc:152-158 | whatever the log, memory and log agree after a completion exactly if the path is one line and the log ends in a complete line, or the torn line and the path were such that nothing is lost or gained |
| JobLog.CompletionIsRecordedExactly | netpull/server/netpull_server.cc:152-158 | whatever the log, the path is in its next reading exactly if it is one line and the log ends in a complete line or had it in its complete lines |
| JobLog.TornLine | netpull/server/netpull_server.cc:115-127 | what a completion written behind a torn line reads as: the end of that line, which may name a path that never was |
| JobLog.StepAgreesExactly | netpull/server/netpull_server.cc:541-566 | a request or restart keeps table and logs in agreement exactly if what it writes reads back |
| JobLog.NewlineCompletesAnotherPath | netpull/server/netpull_server.cc:152-158 | a path with a newline in it can read back as the completion of any other path |
| JobLog.RunAgrees | netpull/server/netpull_server.cc:541-542 | after any requests and restarts, whatever the crashes left of the logs, every job in the table is what its log reads back as if each write read back, and a job already there is not replaced |
| JobLog.EveryCut | netpull/server/netpull_server.cc:115-127 | every first part of a log is one of its header, or whole lines and the start of a completion line |
| JobLog.HeaderCutReadsBack | netpull/server/netpull_server.cc:115-140 | a cut header reads as no completions and the path as far as it was written |
| JobLog.CutHeaderLoadsExactly | netpull/server/netpull_server.cc:115-142 | a header cut anywhere is refused exactly if nothing of the path is left, or what is left is not "/" and ends in "/", "/." or "/.." |
| JobLog.LineCutAddsNothing | netpull/server/netpull_server.cc:115-127 | a log that lost its last lines says nothing it did not say before |
| JobLog.CutReadsBackExactly | netpull/server/netpull_server.cc:115-127 | a cut log has the same path, and only written completions exactly if the torn line is unrecognised or reads as one of them |
| JobLog.PatchworkRecords | netpull/server/netpull_server.cc:115-158 | of a log that was torn and written to any number of times, a recorded path is a first part of a written one with nothing but first parts of completion lines behind it |
| JobLog.Job.New | netpull/server/netpull_server.cc:75-100 | memory and log agree exactly if the path is one line |
| JobLog.Job.Load | netpull/server/netpull_server.cc:103-143 | gives the job its log reads back as, complete or torn, or none exactly as `JobLog.LoadsExactly` says |
| JobLog.Job.IsCompleted | netpull/server/netpull_server.cc:146-148 | whether memory has the path |
| JobLog.Job.MarkCompleted | netpull/server/netpull_server.cc:152-158 | memory gains the path; the log's next reading gains it, and the two go on to agree, exactly on the conditions above, for any loaded log |
| FastCrawler.CrawlIsEnumeration | netpull/server/fast_crawler.cc:48-59 | draining any queue handles the same objects, as often, as the recursive enumeration |
| FastCrawler.CrawlDepthOrdered | netpull/server/fast_crawler.cc:54-58 | objects come in non-decreasing depth |
| FastCrawler.CrawlParentsFirst | netpull/server/fast_crawler.cc:158-166 | each object comes after its parent directory |
| FastCrawler.VisitIsExact | netpull/server/fast_crawler.cc:48-168 | a visit handles exactly the enumerated objects, in depth order, parents first, and each path is the root, a slash and the slash-joined list of names, the relative path that list alone |
| FastCrawler.VisitFindsExactly | netpull/server/fast_crawler.cc:89-167 | an object is handled exactly if its names lead to an entry other than "." and "..", whose stat works and whose kind (that of the stat if the directory does not say) is file, directory or symlink, through directories whose descriptors can be duplicated and whose listings open |
| FastCrawler.EntriesInOrder | netpull/server/fast_crawler.cc:99-167 | within a directory objects come, and directories are queued, in the order of the entries |
| FastCrawler.RelativePathsDistinct | netpull/server/fast_crawler.cc:84-111 | two objects have the same relative path only if they are the same |
| FastCrawler.Crawler.Visit | netpull/server/fast_crawler.cc:48-59 | the queue loop ends, with the queue empty and the crawl handled |
| FastCrawler.Crawler.PumpFront | netpull/server/fast_crawler.cc:54-58 | reading the front directory and popping it leaves what was handled and what is to come together unchanged, and less to do |
| FastCrawler.Crawler.PumpDirectoryEntries | netpull/server/fast_crawler.cc:74-169 | reads a directory's entries in any batches and handles and queues what the entries say |
| FastCrawler.Crawler.ReadBatches | netpull/server/fast_crawler.cc:89-168 | any split of the entries into batches handles and queues the same |
| FastCrawler.Crawler.HandleBatch | netpull/server/fast_crawler.cc:99-167 | one batch moves its entries from what is to come to what was handled and queued |
| FastCrawler.Crawler.HandleEntry | netpull/server/fast_crawler.cc:104-166 | one entry is handled if supported and queued if a directory whose descriptor can be duplicated, for the kinds that `FastCrawler.VisitFindsExactly` spells out |
| Path.JoinInPlace | netpull/server/path.cc:17-35 | makes the model's join: one slash between, and one less at the end, as `Path.JoinExactly` spells out |
| Path.JoinExactly | netpull/server/path.cc:17-35 | whether or not either side has a slash where they meet, the result has one there, and loses at most one at the end |
| Path.JoinResolvedExactly | netpull/server/path.cc:17-35 | served root and requested path join to a resolved path unless both are "/" |
| Path.JoinAbsolute | netpull/server/path.cc:17-35 | an absolute right side is joined below the left one like a relative one |
| Path.CheckResolved | netpull/server/path.cc:41-58 | true exactly without empty, "." and ".." components |
| Path.ResolvedExactly | netpull/server/path.cc:41-58 | what is refused, in terms of the parts between slashes: an empty, "." or ".." one, except for the slash at the front |
| Path.CutResolvedExactly | netpull/server/path.cc:41-58 | which first parts of a resolved absolute path are resolved |
| Path.JoinRoot | netpull/server/path.cc:17-35 | root and relative path join to an absolute resolved path, their text with a slash between |
| Path.JoinAssociative | netpull/server/path.cc:17-35 | joining components one by one or joined is the same |
| Path.RelativeToUndoesJoin | netpull/server/path.h:85-88 | below a root other than "/", the relative path of a joined path is what was joined |
| Path.JoinUndoesRelativeToExactly | netpull/server/path.h:85-88 | joining back gives the path exactly if the base is not "/" and ends at a component boundary |
| Path.SiblingIsTakenForChild | netpull/server/path.cc:60-66 | a sibling whose name extends the base's passes for a child and loses a character |
| Path.ExtendIsJoined | netpull/server/fast_crawler.cc:84-111 | the path built component by component is root, slash and the joined names; its relative path is the joined names and is not absolute |
| Console.LogIsNeverErased | netpull/console.cc:20-110 | after any run of claims, releases, updates, draws and messages the screen is the whole log and then the block last drawn, and size less diff is the rows of that block |
| Console.HistoryGrows | netpull/console.cc:20-60 | later output only extends the log shown |
| Console.StepShows | netpull/console.cc:62-110 | one operation keeps that, whichever sign diff has |
| Console.EraseKeepsHistory | netpull/console.cc:77-87 | erasing, in unsigned arithmetic, takes away the block and nothing of the log |
| Console.RedrawIsStableExactly | netpull/console.cc:89-110 | redrawing leaves the screen as it was exactly if no line holds a newline |
| Console.Screen.Claim | netpull/console.cc:68-75 | a fresh empty line at the end, and nothing drawn |
| Console.Screen.Destroy | netpull/console.cc:62-66 | that line is gone from the list, and nothing drawn |
| Console.Screen.InternalUnsafeEraseOldLines | netpull/console.cc:77-87 | writes a return, the cursor moves for the block, and a clear to the end of the screen |
| Console.Screen.InternalUnsafeDrawAll | netpull/console.cc:89-104 | writes the contents joined by newlines |
| Console.Screen.DrawAll | netpull/console.cc:106-110 | makes the model's draw |
| Console.Screen.LogGenericString | netpull/console.cc:20-60 | makes the model's message step, or nothing for a hidden level |
| Console.MessageIsShown | netpull/console.cc:20-60 | a message above the retained lines has its level's prefix, and the error text behind it for a failed call; only verbose ones are hidden, and only unless asked for |
| Utf8.ForString | netpull/client/utf8.cc:16-82 | ends exactly on strings made of characters, with each one's index and width and the total |
| Utf8.ReadCharacter | netpull/client/utf8.cc:38-67 | decodes the character at a position, or does not move |
| Utf8.EndsExactly | netpull/client/utf8.cc:37-67 | the loop ends exactly on strings that are a concatenation of characters, which is unique |
| Utf8.IndicesPartition | netpull/client/utf8.cc:77-78 | the indices cut the string into its characters, without gaps |
| Utf8.DecodesWhatWasEncoded | netpull/client/utf8.cc:16-82 | on the UTF-8 encoding (section 3 of RFC 3629) of any scalar values, those values, their positions and the sum of their widths |
| ProgressBuilder.Create | netpull/client/progress_builder.cc:18-22 | accepts exactly actions one column wide |
| ProgressBuilder.BuildLine | netpull/client/progress_builder.cc:58-124 | writes the line within its buffer, wherever the elision stops and the line fits |
| ProgressBuilder.PercentToStringIterator | netpull/client/progress_builder.cc:24-56 | writes the six characters of the percentage |
| ProgressBuilder.PercentDenotes | netpull/client/progress_builder.cc:24-56 | the six characters say exactly that many tenths of a percent, without leading zeros |
| ProgressBuilder.FirstShown | netpull/client/progress_builder.cc:84-94 | the reverse loop stops where the elision says |
| ProgressBuilder.ElisionExactly | netpull/client/progress_builder.cc:79-96 | a cut item stops on a character exactly if the last one fits beside the dots |
| ProgressBuilder.LineWidth | netpull/client/progress_builder.cc:102-122 | the line prints as wide as its parts add up to, or one column less for a cut item |
| ProgressBuilder.NeedsWhatThereIsExactly | netpull/client/progress_builder.cc:105-110 | the parts add up to the columns there are exactly from 17 on |
| ProgressBuilder.LineFits | netpull/client/progress_builder.cc:58-124 | from 17 columns on, with items of characters of one or two columns, the line prints in the columns there are or one less, and nothing is written past the buffer unless the action's one column has more bytes than this |
| ProgressBuilder.LineReads | netpull/client/progress_builder.cc:58-124 | part by part: action, space, item, the bar between brackets, as long as the columns leave and filled to the progress, and the percentage |
| ProgressBuilder.ShownReads | netpull/client/progress_builder.cc:76-101 | the item is shown whole and padded with spaces, or as three dots and as many of its last characters as fit |
| ProgressBuilder.UncutIsSafeExactly | netpull/client/progress_builder.cc:66-77 | on every screen, an item shown whole fits the buffer exactly up to this excess of bytes over columns |
| ProgressBuilder.CutIsSafeExactly | netpull/client/progress_builder.cc:66-96 | on every screen, a cut item fits the buffer exactly up to this many bytes kept |
| ProgressBuilder.OrdinaryIsSafeExactly | netpull/client/progress_builder.cc:58-124 | on every screen, with characters of one or two columns, the line is safe exactly where the elision stops, but on terminals of four or five columns only up to that excess |
| ProgressBuilder.NarrowScreenOverruns | netpull/client/netpull_client.cc:111-112 | the check mark and a euro sign overrun the buffer on a terminal of five columns |
| ProgressBuilder.FilledWithin | netpull/client/progress_builder.cc:110-115 | the filled part lies within the bar, and is all of it at the end |
| ProgressBuilder.ProgressIsMonotone | netpull/client/progress_builder.cc:110-120 | more progress never shows less |
| Socket.SocketConnection.ReadBytes | netpull/network/socket.cc:99-112 | moves some of what is there, nothing at the end of the stream, or fails |
| Socket.SocketConnection.ReadAllBytes | netpull/network/socket.cc:114-128 | all the bytes in order, or a failed call or a stream too short |
| Socket.SocketConnection.SendBytes | netpull/network/socket.cc:130-143 | sends a first part, or fails |
| Socket.SocketConnection.SendAllBytes | netpull/network/socket.cc:145-155 | sends everything exactly if no call fails, and otherwise a proper prefix |
| Socket.SocketConnection.ReadProtobufMessage | netpull/network/socket.cc:157-170 | if no call fails, the result is decided by the stream's bytes alone: its first frame, parsed |
| Socket.SocketConnection.SendProtobufMessage | netpull/network/socket.cc:172-190 | sends one frame exactly if no call fails, and otherwise a proper prefix of it |
| Socket.FrameReadsBackExactly | netpull/network/socket.cc:157-175 | a frame reads back as its message exactly below 2^32 bytes |
| Socket.SizeIsBigEndian | netpull/network/socket.cc:157-175 | the size in front of a frame has its most significant byte first |
| Socket.CutGivesPrefix | netpull/network/socket.cc:157-170 | a stream cut anywhere gives the whole messages before the cut and leaves less than the next one |
| Socket.ReadingLosesNothing | netpull/network/socket.cc:157-170 | whatever a stream holds, the frames of the messages read and what is left are all of it |
| Socket.StreamReadsBack | netpull/network/socket.cc:157-190 | reading until it fails gives the messages sent, in order, and leaves nothing |
| Socket.MessagesArrive | netpull/network/socket.cc:157-190 | with a codec that round-trips, the messages before the cut arrive and then reading fails |
| Socket.Exchange | netpull/network/socket.cc:157-190 | messages sent one by one, by calls of the sending method, and read until reading fails, by calls of the reading one, arrive in order: all of them unless a call failed or the connection was lost |
| Streaming.SendFile | netpull/server/netpull_server.cc:257-273 | sends the file's bytes in order up to the size, unless a call fails or the file ends |
| Streaming.Transfer.EmptyPipe | netpull/client/netpull_client.cc:237-247 | moves the pipe's bytes to the file in order and counts them, until the pipe is empty or a call fails |
| Streaming.Transfer.ReadFile | netpull/client/netpull_client.cc:222-248 | file, pipe and unread stream together are always the stream; on success the pipe is empty and the announced size is reached |
| Streaming.ReadBack | netpull/client/netpull_client.cc:114-133 | whatever sizes the reads have, the digest is that of the whole file, unless a call fails |
| Streaming.Pull | netpull/client/netpull_client.cc:222-248 | a file can be pulled whole exactly below 2 GiB: there it is written whole or the transfer fails, which takes a failed call; above, it never arrives whole |
| Streaming.SizeArrivesExactly | netpull/netpull.proto:85 | the size the client compares with is the file's exactly below 2 GiB |
| Messages.Int32IsResidue | netpull/netpull.proto:85 | a size in an int32 field is the value modulo 2^32 |
| Streaming.BytesAreConserved | netpull/client/netpull_client.cc:237-247 | on every interleaving, bytes drained, in the counter and about to be added are the bytes written |
| Streaming.ConsoleSeesAllExactly | netpull/client/netpull_client.cc:362 | the console never sees more than was written, and sees it all exactly when no task is between its splice and its addition |
| Ip.ParseAddress | netpull/network/ip.cc:25-48 | the loop accepts exactly four parts that read as octets |
| Ip.AddressExactly | netpull/network/ip.cc:25-48 | accepted are exactly four parts between dots that read as numbers from 0 to 255, and those are the address |
| Ip.StoiExactly | netpull/network/ip.cc:25-48 | a number is read behind spaces and a sign up to the first other character, and is refused without digits or beyond 32 bits |
| Ip.AddressReadsBack | netpull/network/ip.cc:157-161 | an address of octets reads back from its text, also after a space, and holds no separator of the larger texts |
| Ip.GenericLessThan | netpull/network/ip.cc:60-73 | the early-exit loop is the lexicographic order, with or without equality |
| Ip.ComparesNumbers | netpull/network/ip.cc:60-73 | on octets that order is the order of the 32-bit numbers |
| Ip.MultiContains | netpull/network/ip.h:100-109 | true exactly if some range contains the address |
| Ip.IsUnionOfIntervals | netpull/network/ip.h:91-109 | a list of ranges is the union of closed intervals of 32-bit numbers |
| Ip.ParseMulti | netpull/network/ip.cc:97-115 | the loop collects the ranges, or nothing once one does not parse |
| Ip.RangeReadsBack | netpull/network/ip.cc:163-169 | a range of octets reads back from its text, also after a space |
| Ip.RangeExactly | netpull/network/ip.cc:75-95 | read are exactly one address, or two with a dash between, and nothing if either does not parse |
| Ip.MultiExactly | netpull/network/ip.cc:97-115 | a list is accepted exactly if it is empty or each part between commas is a range, and has those ranges in that order |
| Ip.PrivateExactly | netpull/network/ip.cc:117-122 | "@private" is 10/8, 172.16/12, 192.168/16 and 127/8 |
| Ip.ListReadsBackExactly | netpull/network/ip.cc:200-202 | a list of ranges reads back from its flag text exactly if it is made of octets |
| Ip.LocationReadsBack | netpull/network/ip.cc:124-146 | a location reads back from its text, and has the default port without one |
| Ip.LocationExactly | netpull/network/ip.cc:124-146 | read are exactly an address, with port 7420, or an address, a colon and a number |

## Left out

- ProtocolResults.RecordedIsVerified: equal digests, not equal contents; the two differ only where the digest function collides.
- ProtocolResults.ReportCoversTree: an object completed in this session was created, and a file checked; metadata and symlink targets are not part of the model.
- ProtocolResults.NeverHonouredTwice: ids are numbers that are never given out twice; that the random ids of the code are is not proved.
- ProtocolResults.ReportsAreConserved: a client may report a path it has checked more than once before its task returns, where the code reports it once.
- ProtocolInvariant.StepInv: the served tree is fixed while a job runs, and success requests come from integrity tasks only; the request loop takes them from anyone for any job (netpull/server/netpull_server.cc:558-566).
- ProtocolResults.RecordedIsBacked: the date in a log's first line holds no line break.
- ProtocolProgress.PullEnds: a step that may fail counts as one that can be made, so that it says a session ends, not that it succeeds.
- ServerSession.FinishedSession: each session has its own projection of the server's shared pool, so workers busy with other sessions appear as steps that are not taken.
- ClientSession.ReportIsExact: paths of different messages are taken to differ; `ProtocolInvariant.StreamDistinct` proves that they do.
- ServerSession and ClientSession are values with one function per step rather than objects, because their threads interleave between the steps; the pool, the maps, the log and the crawler they use are also given as objects.
- JobLog.RunAgrees: writes to a log succeed.
- JobLog.Job.Load: reading the log file does not fail.
- `GuardedSet::Erase` takes no lock in the code, where it is atomic here, and what a moved-from set holds is left open by its library, where `Pull` leaves it empty.
- FastCrawler.Crawler.Visit: the crawled root is resolved, absolute and not "/", which no join gives; link targets are not read.
- ProtocolProgress.SlashIsNeverServed: the abort is a restart that may come late.
- Console.LogIsNeverErased: rows of any length, so nothing wraps, lines without newlines, no carriage returns in messages, fewer than 2^31 lines, one stream for standard output and error; colours are left out.
- ProgressBuilder.BuildLine: progress is a real number from 0 to 1; the quotient of an empty file, which is not a number, and rounding are left out.
- ProgressBuilder.PercentToStringIterator: the same.
- ProgressBuilder.LineFits: items with characters without width are excluded; `ProgressBuilder.UncutIsSafeExactly` and `ProgressBuilder.CutIsSafeExactly` say what they do.
- ProgressBuilder.ElisionExactly: items narrower than 2^64 - 3 columns.
- Utf8.ForString: `wcwidth` is a parameter; what a string on which the loop never ends does to memory is left out.
- Socket.SocketConnection.ReadBytes: a call that is interrupted is made again, which is not shown.
- Socket.SocketConnection.SendProtobufMessage: writing the serialized message is the codec's own code; it is taken to send all of it or fail.
- Streaming.Transfer.ReadFile: `splice` to the file moves at least one byte or fails; the file's older content beyond what is written stays, as `Protocol` models.
- Ip.ParseMulti: the empty text is read as the empty list, which is what its `return {{}}` is for.
- The reference to a job inside a hash map that may grow (netpull/server/netpull_server.cc:543-544): jobs are a map by id.
- Rewriting of symlink targets, ownership, permissions and times, as there is nothing about them beyond system calls.
- `GuardedMap::GetAndPop` and `WaitForEmpty`, which are not used.
- Flags, signal handling, `realpath`, address conversion, the transfer rate and process start-up.
- SHA-256, random ids and protobuf encoding, which are library code.
