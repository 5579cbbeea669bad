# A verified model of libdrop

libdrop moves files between two devices and survives lost connections and restarts. This project models its
hard parts in Dafny and proves what they promise, over every input, every run and every restart:

- **Both managers and their tables.** `Storage` holds the tables, `Outgoing` and `Incoming` the effect of each
  locked manager operation on one transfer (entry and rows together), `Manager` the class that performs them,
  `Operations` what they promise their callers, and `Agreement` the proof that memory and tables agree and that a
  restart rebuilds memory.
- **Two parties over protocol v6.** `Protocol` joins a sender and a receiver by queues and a connection that may
  break anywhere. `ConvergenceInvariant`, `SenderSteps`, `ReceiverSteps` and `Convergence` prove what every step
  keeps; `Settling` proves that a reconnection settles and that both sides then agree on which files have ended;
  `Missed` exactly what a settled connection has not told, `Detaching` how it comes to that, `AfterBreak` what a
  break does not undo, and `Success` that no end is invented and that both sides end up with the same kind of end.
- **What the application is told.** `Events` models the two event state machines; `Reports` counts what was
  reported; `UploadLife` and `DownloadLife` follow one transfer over its whole life, restarts included;
  `DownloadEnds` counts how often a download is reported as ended, and `UploadKinds` and `DownloadKinds` prove as what.
- **The byte stream.** `Resume` covers sender, receiver and any history of attempts on one file, `ResumeProgress` what
  an attempt writes, reports, keeps and sends, byte by byte and report by report; `Checksum` the
  streaming digest and its announcements; `ChunkCodec` the binary message.
- **Names, paths and headers.** `Names` (root renaming), `DirMapping` (the directory cache over restarts), `Tree`
  (the tree of old transfer requests), `Splitting` and `AuthHeader`.
- **Small loops.** `Progress` (byte counts stored with events), `Throttle`, `Backoff`.

`Base` holds the shared vocabulary. Where the source changes state in place, a class does the same and is proved
against functions on values, and the promises are lemmas about those functions.

## Assumptions

- Storage writes succeed and foreign keys cascade as declared. Each locked manager method is one step over memory
  and tables together.
- Ids of outgoing transfers are fresh. Path components are plain: not empty, not `.` or `..`, without `/`.
- A connection delivers in order, or breaks. A hash is an arbitrary function, collision-free only where a lemma
  asks for it.

## Where the code differs from its intention

- `register_incoming` means to refuse a second connection while one is in progress, but refuses when the old
  connection is *closed* and lets the new one replace a connection that is open
  (drop-transfer/src/manager.rs:125-130). The model follows the code. For `register_incoming` alone
  `Detaching.RegistrationKeepsIff` is the exact condition, `Detaching.DeadConnectionBlocks` a run in which the sender
  is sent away although nothing is in progress, `Detaching.LivingConnectionReplaced` a run in which a working
  connection is replaced, and `Settling.ReconnectionAttaches` says exactly when a reconnection gets through.
- `incoming_disconnect` takes whatever connection the entry holds (drop-transfer/src/manager.rs:680-688), and the run
  of every request ends with it, refused ones included (drop-transfer/src/ws/server/mod.rs:470-479):
  `Detaching.RequestTakesConnection`. So a refusal clears the dead connection that caused it
  (`Settling.RefusalClears`), and a loop or a refused request that ends late detaches a newer connection.
- While the entry does not hold the connection in use, a rejection is stored but not sent until the next
  reconnection: `Detaching.LateDisconnectMissesRejection`, `Detaching.OverdueRequestMissesRejection` and
  `Detaching.RefusedRequestMissesRejection` give a run for each way to get there. A download asked for then is started
  by the loop whose connection is held, which the sender has left, and its end goes nowhere either:
  `Detaching.StrayDownloadIsMissed`. Over all runs these two kinds of ends are the only ones a quiet connection has
  not told: `Missed.QuietDisagreesIff`.
- The terminal state of a `FileEventTx` is not absorbing (drop-transfer/src/ws/events.rs:150-186,
  drop-transfer/src/ws/events.rs:226-250, drop-transfer/src/ws/events.rs:343-346). `Events.SecondEndIff` says exactly
  when a second end is reported; for uploads the manager prevents it (`UploadLife.EndedAtMostOnce`), for downloads
  nothing does: `DownloadEnds.CompletedTwice` is a run, `DownloadEnds.ReportedAgainIff` the exact condition.
- The inner loop of the checksum does not advance with a granularity of zero
  (drop-transfer/src/file/mod.rs:364-369), which the configuration does not rule out. `Checksum.EndsIff`: the whole
  comes to an end exactly when nobody listens, the granularity is not zero, or there is nothing to read.
- A v1 transfer request silently loses a file when an earlier file has the path of one of its directories:
  `Tree.NothingLostIff` is the exact condition, `Tree.ShadowedFileIsLost` the shortest such request.
- Where a word has 32 bits the sum that locates the data of a chunk can wrap when overflow is not checked, and the
  message is then taken apart in the wrong place (drop-transfer/src/protocol/v6.rs:148-151): `ChunkCodec.WordShowsIff`.

## Model

| member | source | states |
|---|---|---|
| `Storage.Without` | drop-storage/src/sync.rs:238-261 | deleting a file's in-flight rows keeps exactly the rows of the other files |
| `Storage.Db.InsertTransfer` | drop-storage/src/lib.rs:100-172 | succeeds exactly for an unknown id, then transfer, paths and sync rows appear together; other transfers keep their rows |
| `Storage.Db.UpdateTransferSyncState` | drop-storage/src/sync.rs:134-147 | the local state of this transfer's sync row, if there is one, and nothing else: every file reads as before and the foreign keys stay in order |
| `Storage.Db.TransferSyncClear` | drop-storage/src/sync.rs:149-156 | drops the sync row with its file rows; tells whether there was one |
| `Storage.Db.UpdateFileSyncState` | drop-storage/src/sync.rs:311-335 | sets the state of one file's sync row, if there is one |
| `Storage.Db.StartIncomingFile` | drop-storage/src/sync.rs:263-284 | adds one in-flight row after the others |
| `Storage.Db.StopIncomingFile` | drop-storage/src/sync.rs:238-261 | removes every in-flight row of the file and no other |
| `Storage.Db.IncomingFilesInFlight` | drop-storage/src/sync.rs:209-236 | the in-flight rows of files still alive, in order |
| `Storage.Db.ReadFileSyncState` | drop-storage/src/lib.rs:307-378 | the sync state of a file with the three recorded flags, or nothing without a sync row; with the foreign keys in order nothing is known of a file that is no path of the transfer |
| `Storage.Db.RecordFileState` | drop-storage/src/lib.rs:671-856 | adds the file to the records of exactly this kind when it is a path of the transfer; the other kinds, the closing record, paths and sync rows stay |
| `Storage.RecordsExactly` | drop-storage/src/lib.rs:671-856 | membership in each of the three records afterwards: as before, or this file in the record of this kind |
| `Storage.Db.PurgeTransfers` | drop-storage/src/lib.rs:940-976 | marks exactly those listed transfers that have a cancel or failed record |
| `Storage.Db.CleanupGarbageTransfers` | drop-storage/src/lib.rs:1652-1681 | drops exactly the marked transfers without a sync record |
| `Manager.IssuePendingIn` | drop-transfer/src/manager.rs:818-864 | replays, once each and in any order, a download per running file and the end of each ended file |
| `Manager.IssuePendingOut` | drop-transfer/src/manager.rs:703-730 | replays rejections and failures, and nothing for completed files |
| `Manager.TransferManager.RegisterIncoming` | drop-transfer/src/manager.rs:106-189 | known: refused without any change exactly when the peer, a file or a size differs or the connection held is dead, otherwise pending requests replayed, cancelled ones closed; unknown: stored and registered; closed before: Close; peer and files are those asked for |
| `Manager.TransferManager.Download` | drop-transfer/src/manager.rs:753-805 | an idle file starts, a running one is left alone, an ended or unknown one is refused |
| `Manager.TransferManager.TerminateIncoming` | drop-transfer/src/manager.rs:957-966 | a live file is ended in memory with exactly the kind of the call, in the tables, and its in-flight rows go; an ended one is refused and nothing changes |
| `Manager.TransferManager.IncomingRejectionPost` | drop-transfer/src/manager.rs:392-437 | refused for cancelled transfers; otherwise ends the file and pushes the rejection when connected |
| `Manager.TransferManager.IncomingFinishPost` | drop-transfer/src/manager.rs:458-491 | ends the file as completed or failed, unless cancelled, unknown or ended |
| `Manager.TransferManager.IncomingTerminalRecv` | drop-transfer/src/manager.rs:493-528 | a peer's message ends a live file, cancelled transfer or not, and answers whether this call did |
| `Manager.TransferManager.IncomingIssueClose` | drop-transfer/src/manager.rs:560-596 | cancelled in memory and table, peer told, downloads idled in memory only |
| `Manager.TransferManager.IncomingRemove` | drop-transfer/src/manager.rs:439-446 | entry and sync record go, the transfer's row stays |
| `Manager.TransferManager.IncomingDisconnect` | drop-transfer/src/manager.rs:680-688 | takes whatever connection the entry holds |
| `Manager.TransferManager.InsertOutgoing` | drop-transfer/src/manager.rs:234-280 | a fresh id gets a new entry with every file alive, and its rows |
| `Manager.TransferManager.OutgoingConnected` | drop-transfer/src/manager.rs:199-232 | a new transfer becomes active, an active one replays its pending requests, a cancelled one only closes |
| `Manager.TransferManager.TerminateOutgoing` | drop-transfer/src/manager.rs:976-984 | the gate that lets one caller end a file |
| `Manager.TransferManager.OutgoingRejectionPost` | drop-transfer/src/manager.rs:314-356 | ends the file as rejected and pushes the rejection when connected |
| `Manager.TransferManager.OutgoingFailurePost` | drop-transfer/src/manager.rs:530-558 | ends the file as failed |
| `Manager.TransferManager.OutgoingTerminalRecv` | drop-transfer/src/manager.rs:358-390 | a peer's message ends a live file and answers whether this call did |
| `Manager.TransferManager.OutgoingIssueClose` | drop-transfer/src/manager.rs:598-645 | a new transfer is forgotten, an active one cancelled and the peer told, a cancelled one refused |
| `Manager.TransferManager.OutgoingRemove` | drop-transfer/src/manager.rs:662-669 | entry and sync record go |
| `Manager.TransferManager.OutgoingDisconnect` | drop-transfer/src/manager.rs:690-698 | takes the connection |
| `Manager.TransferManager.RestoreIncoming` | drop-transfer/src/manager.rs:1041-1166 | one entry rebuilt from its rows: recorded ends first, then in-flight rows over what has not ended; nothing when a path lacks a sync row or the rows make no valid transfer |
| `Manager.TransferManager.RestoreOutgoing` | drop-transfer/src/manager.rs:1168-1263 | the same for the sending side, where files that cannot be opened again count as well |
| `Manager.TransferManager.RestoreTransfersState` | drop-transfer/src/manager.rs:987-999 | both maps depend on the tables alone, and a transfer that cannot be restored keeps no other from being restored |
| `Operations.ReceiverEnds` | drop-transfer/src/manager.rs:392-528 | each call that ends a received file does so, as rejected, completed, failed or as the peer said, exactly when it is allowed and the file is live; no other file changes; every refusal and its reason; only rejections are pushed |
| `Operations.ReceiverEndsRows` | drop-transfer/src/manager.rs:406-416 | in the tables the file is terminal and has no in-flight row, other files keep theirs |
| `Operations.ReceiverEndedForGood` | drop-transfer/src/manager.rs:957-966 | after the first end no call ends the file again, and its kind stays |
| `Operations.EndIsReplayed` | drop-transfer/src/manager.rs:818-864 | after any such call a reconnection announces exactly that end and no download |
| `Operations.DownloadStarts` | drop-transfer/src/manager.rs:753-804 | who may start a download, in which directory, and every refusal with its reason |
| `Operations.RegistrationRefusedIff` | drop-transfer/src/manager.rs:1318-1341 | a request for a known transfer is refused, and nothing changes, exactly when it is from another peer, has a file too many or too few, another size, or finds a dead connection held |
| `Operations.RegistrationAccepted` | drop-transfer/src/manager.rs:119-189 | what an accepted request changes: the connection only; Close for cancelled and removed transfers; a fresh entry for unknown ones |
| `Operations.ReceiverCancels` | drop-transfer/src/manager.rs:560-596 | cancelling keeps ended files, idles running ones in memory only, drops the connection and tells the peer when there is one |
| `Operations.ReceiverCancelIsTold` | drop-transfer/src/manager.rs:577-582 | the peer of a cancelled transfer is told at once when connected, and by the answer to any later request, which gets it no connection |
| `Operations.ReceiverLeaves` | drop-transfer/src/manager.rs:439-446 | removing drops entry and sync record only, disconnecting the connection only |
| `Operations.SenderEnds` | drop-transfer/src/manager.rs:314-390 | the same for the calls that end a file on the sender |
| `Operations.SenderEndedForGood` | drop-transfer/src/manager.rs:976-984 | the first end on the sender stays |
| `Operations.SenderConnects` | drop-transfer/src/manager.rs:199-232 | connecting activates and stores the connection unless the transfer is cancelled, which is answered by closing |
| `Operations.SenderCancels` | drop-transfer/src/manager.rs:598-645 | a new transfer is forgotten silently, an active one cancelled and told at once or at the next connection, a cancelled one refused |
| `Operations.SenderLeaves` | drop-transfer/src/manager.rs:662-699 | removing and disconnecting on the sender |
| `Operations.SenderInserts` | drop-transfer/src/manager.rs:234-280 | a new transfer starts with every file alive in memory and tables, unconnected, nothing recorded |
| `Agreement.RegisterAgrees` | drop-transfer/src/manager.rs:106-192 | registering keeps memory and tables in agreement |
| `Agreement.StartDownloadAgrees` | drop-transfer/src/manager.rs:768-805 | so does starting a download: in flight with exactly one row for its directory |
| `Agreement.TerminateAgrees` | drop-transfer/src/manager.rs:458-528 | so does every way to end a file |
| `Agreement.CloseAndRemoveAgree` | drop-transfer/src/manager.rs:560-596 | so do cancelling, removing and disconnecting |
| `Agreement.RecordAgrees` | drop-storage/src/lib.rs:671-856 | so does recording an end that happened |
| `Agreement.OverlayAt` | drop-transfer/src/manager.rs:1098-1109 | a file's last in-flight row decides its directory unless it has ended; other files' rows do not matter |
| `Agreement.RestoreIncoming` | drop-transfer/src/manager.rs:1073-1109 | a restart gives back peer, files, state, every download where it was, and every ended file with the kind recorded first among rejected, completed, failed, and failed when none was |
| `Agreement.RestoreKeepsAgreement` | drop-transfer/src/manager.rs:1041-1166 | restoring keeps agreement, existence and transfer state, for cancelled and removed transfers too |
| `Agreement.OutTerminateAgrees` | drop-transfer/src/manager.rs:314-390 | ending an outgoing file keeps agreement, cancelled or not |
| `Agreement.OutOthersAgree` | drop-transfer/src/manager.rs:199-232 | so do connecting, cancelling, removing and disconnecting |
| `Agreement.OutRecordAgrees` | drop-storage/src/lib.rs:707-828 | so does recording an end that happened |
| `Agreement.RestoreOutgoing` | drop-transfer/src/manager.rs:1194-1218 | exactly the ended files are restored as ended, with their recorded kind |
| `ConvergenceInvariant.InitInv` | drop-transfer/src/manager.rs:234-280 | a fresh transfer satisfies the two-party invariant |
| `ConvergenceInvariant.PendingInAnnounces` | drop-transfer/src/manager.rs:818-864 | a file's replayed request says exactly what state it is in |
| `ConvergenceInvariant.PendingOutAnnounces` | drop-transfer/src/manager.rs:703-730 | the sender replays exactly rejected and failed files |
| `SenderSteps.BrokenInv` | drop-transfer/src/ws/server/mod.rs:555-571 | a break at any point keeps the invariant, with the leftovers, the unfinished and the finishing downloads it leaves to the old loop |
| `SenderSteps.SenderRecvInv` | drop-transfer/src/ws/client/v6.rs:112-153 | so does every message the sender handles |
| `SenderSteps.SenderLateInv` | drop-transfer/src/ws/client/mod.rs:452-488 | so does a leftover read after the break |
| `ReceiverSteps.AcceptInv` | drop-transfer/src/ws/server/mod.rs:491-508 | so does registering with the pending requests in any order, and a refusal, whose run still has its disconnect to make |
| `ReceiverSteps.ReceiverRecvInv` | drop-transfer/src/ws/server/v6.rs:217-339 | so does every message the receiver handles, late chunks included |
| `ReceiverSteps.ReceiverLateInv` | drop-transfer/src/ws/server/mod.rs:601-632 | so does whatever another receiver loop still reads, in any order: ends, chunks, and an overdue request that registers, gets the pending downloads replayed and may start them |
| `ReceiverSteps.ReceiverRejectsInv` | drop-transfer/src/manager.rs:392-437 | so does a local rejection |
| `Convergence.DialInv` | drop-transfer/src/ws/client/mod.rs:328-380 | so does dialing with the pending requests in any order |
| `Convergence.SendNextInv` | drop-transfer/src/ws/client/mod.rs:490-519 | so does sending the next queued request |
| `Convergence.JobFailsInv` | drop-transfer/src/ws/client/mod.rs:568-592 | so does a job that posts a failure before it reports it |
| `Convergence.TakeInv` | drop-transfer/src/ws/server/mod.rs:634-673 | so does the receiver taking a request, a repeated download included |
| `Convergence.CommitInv` | drop-transfer/src/ws/server/mod.rs:996-1037 | so does the final section of a download job |
| `Convergence.OrphanInv` | drop-transfer/src/ws/server/mod.rs:986-1043 | so does the final section of a job of another loop |
| `Convergence.StrayInv` | drop-transfer/src/ws/server/mod.rs:510-557 | so does whatever another loop does with the downloads it was asked for: they end either way, stop or never begin |
| `Convergence.LoopEndsInv` | drop-transfer/src/ws/server/mod.rs:470-479 | so does the disconnect of any other loop, late or of a refused request |
| `Convergence.SenderRestartsInv` | drop-transfer/src/manager.rs:1168-1263 | so does restarting the sender |
| `Convergence.ReceiverRestartsInv` | drop-transfer/src/manager.rs:1041-1166 | so does restarting the receiver |
| `Convergence.StepInv` | drop-transfer/src/manager.rs:358-390 | every step of the two-party system keeps the invariant until a side cancels or removes the transfer |
| `Convergence.RunInv` | drop-transfer/src/manager.rs:493-528 | the invariant over every run |
| `Convergence.CompletedMeansEnded` | drop-transfer/src/ws/client/v6.rs:150-153 | in every run, a file completed on the sender has ended on the receiver |
| `Convergence.QuietAgrees` | drop-transfer/src/manager.rs:703-730 | on a quiet attached connection a file has ended on one side exactly when it has on the other |
| `Convergence.SettledRunAgrees` | drop-transfer/src/ws/server/v6.rs:254-339 | the same after any run |
| `Success.StepClaims` | drop-transfer/src/ws/server/mod.rs:996-1037 | for each kind of end: no step of either side, break or restart makes a new claim of it but the ones that end that very file in that way |
| `Success.RestoredClaims` | drop-transfer/src/manager.rs:1073-1109 | a restart gives a file an end only as recorded, or as failed when it had ended unrecorded |
| `Success.EndsHaveOrigins` | drop-transfer/src/ws/server/v6.rs:254-339 | in every run, cancelled ones included, a side has a file as rejected, completed or failed only when an earlier step ended exactly that file in exactly that way |
| `Success.QuietSidesAgreeOnKind` | drop-transfer/src/ws/client/v6.rs:112-153 | after any run that ends quiet and attached, a file that was ended in one way only is live on both sides or ended in that way on both |
| `Success.CompletedMeansDownloaded` | drop-transfer/src/ws/client/v6.rs:150-153 | in every run, cancelled ones included, the sender has a file as completed only when a download of that file ended well before |
| `Settling.NothingDrains` | drop-transfer/src/ws/server/mod.rs:522-553 | nothing can drain exactly on a quiet connection |
| `Settling.DrainingWorks` | drop-transfer/src/ws/server/mod.rs:522-553 | every message, request or job handled leaves strictly less to do and keeps the connection attached |
| `Settling.Converges` | drop-transfer/src/ws/server/mod.rs:522-553 | in every interleaving a connection that is up settles within a computed number of steps, and an attached one in agreement; running jobs are assumed to end |
| `Settling.ReconnectionAttaches` | drop-transfer/src/manager.rs:106-146 | a reconnection attaches the entry exactly unless that holds a connection whose reader is gone; then it is refused and the link is down again |
| `Settling.RefusalClears` | drop-transfer/src/ws/server/mod.rs:470-479 | after a refusal and one disconnect the next reconnection attaches whatever it finds; before that, exactly when the connection held does not count as closed |
| `Settling.ReconnectionConverges` | drop-transfer/src/manager.rs:818-864 | after any run, a reconnection that is not refused and replays both pending lists in any order and interleaving ends in agreement on every file; one that is refused leaves the link down; running jobs are assumed to end |
| `Missed.StepHeard` | drop-transfer/src/manager.rs:392-437 | on a connection that is up, attached or not, every end is known to the sender, announced or in a job of the current loop, but for an end missed: a rejection made while the entry did not hold the connection, or the end of a download in another loop that the current loop does not do |
| `Missed.MissesOnlyDetached` | drop-transfer/src/manager.rs:106-146 | either kind is missed only while the entry does not hold the connection in use |
| `Missed.StaysEnded` | drop-transfer/src/manager.rs:957-965 | what has ended on the receiver stays ended |
| `Missed.RunMissed` | drop-transfer/src/manager.rs:420-428 | the ends missed since the connection came up account for every end untold, over every run |
| `Missed.QuietDisagreesIff` | drop-transfer/src/manager.rs:420-428 | after any run that ends quiet, attached or not, the sides disagree on a file exactly when its end was missed and the sender has not ended it by itself |
| `Missed.QuietAgreesIff` | drop-transfer/src/manager.rs:420-428 | they agree on every file exactly when the sender has ended all that was missed |
| `Missed.UndisturbedRunAgrees` | drop-transfer/src/manager.rs:392-437 | a run in which no end is missed, and which ends quiet, ends in agreement |
| `Detaching.RegistrationKeepsIff` | drop-transfer/src/manager.rs:113-147 | a registration keeps the connection held exactly when the request does not match, the transfer is cancelled, or that connection is dead; a matching one is refused exactly when it is dead |
| `Detaching.RequestTakesConnection` | drop-transfer/src/ws/server/mod.rs:470-508 | while a request runs the entry holds its connection exactly when it matched and was not refused; once it has ended the entry holds none, accepted or not |
| `Detaching.LateRequestDetachesIff` | drop-transfer/src/manager.rs:125-145 | an overdue request replaces the working connection exactly unless that counts as dead |
| `Detaching.DeadConnectionBlocks` | drop-transfer/src/manager.rs:125-130 | a run in which a reconnection is refused because of a dead connection |
| `Detaching.LivingConnectionReplaced` | drop-transfer/src/manager.rs:125-145 | a run in which a working, quiet connection is replaced by an overdue request |
| `Detaching.LateDisconnectMissesRejection` | drop-transfer/src/manager.rs:680-688 | a run that settles in disagreement after a late disconnect |
| `Detaching.OverdueRequestMissesRejection` | drop-transfer/src/manager.rs:125-145 | a run that settles in disagreement after a replacement, without any late disconnect |
| `Detaching.RefusedRequestMissesRejection` | drop-transfer/src/ws/server/mod.rs:470-508 | a run in which a refusal lets the next reconnection in and then takes its connection, and which settles in disagreement |
| `Detaching.StrayDownloadIsMissed` | drop-transfer/src/ws/server/mod.rs:510-557 | a run without rejection and late disconnect in which a download done by the loop of an overdue request settles in disagreement |
| `Detaching.RejectionArrivesIff` | drop-transfer/src/manager.rs:420-428 | a rejection from a settled connection reaches the sender exactly when the entry holds the connection |
| `AfterBreak.FinishedBeforeBreak` | drop-transfer/src/ws/server/mod.rs:986-1043 | a download that has come to its end when the connection breaks still ends its file, as it came out |
| `AfterBreak.RunningAtBreak` | drop-transfer/src/ws/server/mod.rs:510-557 | so can one that was running or only asked for |
| `AfterBreak.SenderHearsAfterBreak` | drop-transfer/src/ws/client/mod.rs:452-488 | an end on the wire still reaches the sender, with its kind |
| `AfterBreak.ReceiverHearsAfterBreak` | drop-transfer/src/ws/server/v6.rs:254-339 | and the receiver, wherever it stands among the leftovers |
| `AfterBreak.EndStopsJobs` | drop-transfer/src/ws/server/v6.rs:290-309 | telling or hearing of an end stops what runs for the file on that side |
| `AfterBreak.CommittedIsOver` | drop-transfer/src/ws/server/mod.rs:986-1043 | the final section of a job announces how it came out, and the job is over |
| `AfterBreak.ChunkIsAnswered` | drop-transfer/src/ws/server/v6.rs:217-237 | a chunk for a job that is over is answered with an error, any other with nothing |
| `AfterBreak.StartIsAnswered` | drop-transfer/src/ws/client/v6.rs:112-153 | the start of a download is announced, and answered with an error exactly when the file has ended on the sender |
| `Events.FileEventTx.EmitInFlight` | drop-transfer/src/ws/events.rs:114-132 | progress and checksum events pass only in flight; progress moves the byte count; no end is reported |
| `Events.FileEventTx.StartInner` | drop-transfer/src/ws/events.rs:134-148 | starts unless ended; no end is reported |
| `Events.FileEventTx.Stop` | drop-transfer/src/ws/events.rs:150-186 | idle afterwards whatever it was; reported unless idle or ended, and never as an end |
| `Events.FileEventTx.StopSilent` | drop-transfer/src/ws/events.rs:226-250 | idle afterwards, nothing reported |
| `Events.FileEventTx.Terminate` | drop-transfer/src/ws/events.rs:188-224 | ended afterwards; exactly one more end is reported unless it had ended |
| `Events.FileEventTx.ThrottledBy` | drop-transfer/src/ws/events.rs:424-442 | only an idle file is reported as throttled |
| `Events.FileEventTx.PreflightBegins` | drop-transfer/src/ws/events.rs:343-346 | overwrites any state |
| `Events.FileEventTx.PendingBegins` | drop-transfer/src/ws/events.rs:258-270 | reported only when idle |
| `Events.EndsEmit` | drop-transfer/src/ws/events.rs:188-224 | a handle that has not ended reports an end exactly when some call ends it |
| `Events.SecondEndIff` | drop-transfer/src/ws/events.rs:150-250 | an ended handle reports another end exactly when a later call forgets the end and a still later one ends it |
| `Events.EndedIff` | drop-transfer/src/ws/events.rs:150-250 | the handle is in the terminal state exactly when the file was ended and nothing has made that forgotten since |
| `Events.InFlightIff` | drop-transfer/src/ws/events.rs:114-148 | progress passes exactly while the file is in flight: prepared, or started when not ended, and not stopped or ended since |
| `Events.EndIsReportedAs` | drop-transfer/src/ws/events.rs:188-224 | an end is reported with the kind of the call that ends, exactly when no earlier end stands; the first always is |
| `Events.TransferEventTx.EmitOngoing` | drop-transfer/src/ws/events.rs:485-494 | nothing is reported after the transfer was closed |
| `Events.TransferEventTx.Stop` | drop-transfer/src/ws/events.rs:496-507 | the first closing is reported, later ones are not |
| `Reports.ClosingSplits` | drop-transfer/src/ws/events.rs:485-507 | in a log whose closing event is last, nothing about the transfer follows it |
| `UploadLife.WinnerEmits` | drop-transfer/src/ws/events.rs:188-224 | the call that won the gate always emits |
| `UploadLife.WinInv` | drop-transfer/src/manager.rs:976-984 | winning stores the end before the event is due |
| `UploadLife.RestartInv` | drop-transfer/src/manager.rs:1194-1249 | restarting with fresh event handles keeps the invariant |
| `UploadLife.StepInv` | drop-transfer/src/manager.rs:314-390 | every step of an outgoing transfer's life keeps the invariant |
| `UploadLife.EndedAtMostOnce` | drop-transfer/src/ws/client/mod.rs:568-636 | over any life, restarts included, a file is reported as ended at most once |
| `UploadLife.ClosedAtMostOnce` | drop-transfer/src/ws/events.rs:509-563 | a transfer is reported as cancelled or failed at most once and nothing about it follows |
| `UploadLife.StateOnlyAdvances` | drop-transfer/src/manager.rs:598-645 | new, active, cancelled, removed, never back, restarts included, and memory and table name the same state |
| `UploadLife.SilentCancel` | drop-transfer/src/ws/client/mod.rs:328-380 | a transfer cancelled while new was never shown to the peer and never will be |
| `UploadKinds.KindIsTheWinners` | drop-transfer/src/manager.rs:976-984 | while a process lives, a file is ended in a way in memory exactly when the call that ended it named that way, and exactly that is reported or due |
| `UploadKinds.RecordedKindComesBack` | drop-storage/src/lib.rs:707-828 | once recorded, the kind of an ended upload is what every later restart restores |
| `UploadKinds.CancelIsReported` | drop-transfer/src/ws/events.rs:509-563 | a cancelled transfer has been reported as cancelled by this side or is about to be |
| `UploadKinds.RemovalIsReported` | drop-transfer/src/ws/events.rs:509-563 | a transfer in use that the peer closes or that is given up is reported so |
| `UploadKinds.RequestIsSent` | drop-transfer/src/ws/client/mod.rs:328-380 | a transfer that is connected sends its request |
| `DownloadLife.StepInv` | drop-transfer/src/manager.rs:392-596 | every step of an incoming transfer's life keeps the invariant |
| `DownloadLife.FinishInv` | drop-transfer/src/ws/server/mod.rs:996-1037 | a job reports its end whatever the manager answers, and in a transfer in use the file has ended by then |
| `DownloadLife.MemoryMirrorsTables` | drop-storage/src/sync.rs:209-335 | over any life, for a transfer in use: in flight for a directory, idle, ended are each exactly one state of the tables |
| `DownloadLife.RestartRebuilds` | drop-transfer/src/manager.rs:1073-1109 | at any point of any life a restart rebuilds the same entry, ended files with their recorded kind |
| `DownloadLife.CanceledAtMostOnce` | drop-transfer/src/ws/events.rs:565-575 | until its row is collected a transfer is reported as cancelled at most once, nothing follows, and the row is collected only after that report and without a sync record |
| `DownloadLife.RemovedIsRefused` | drop-transfer/src/manager.rs:148-160 | a removed transfer asked for again is answered with Close and not registered until its row is collected |
| `DownloadLife.StaysRemoved` | drop-transfer/src/check.rs:36-51 | nothing but collection ends being removed |
| `DownloadEnds.CallsReport` | drop-transfer/src/ws/events.rs:114-250 | while a process lives, a download is reported as ended as often as the calls on its event handle say |
| `DownloadEnds.ReportedAgainIff` | drop-transfer/src/ws/server/mod.rs:996-1037 | a download reported as ended is reported again exactly when a later call forgets the end and a still later one ends it |
| `DownloadEnds.CompletedTwice` | drop-transfer/src/ws/server/mod.rs:949-1019 | a life without a restart in which one download is reported as completed twice |
| `DownloadEnds.StepStaysSettled` | drop-transfer/src/manager.rs:392-528 | an ended file with nothing under way for it stays so, restarts and cancelling included |
| `DownloadEnds.NotAgainAfterRestart` | drop-transfer/src/manager.rs:1073-1109 | after a restart of a transfer in use a download reported before is never reported again until the row is collected |
| `DownloadKinds.KindIsTheWinners` | drop-transfer/src/manager.rs:392-528 | while a process lives, a file is ended in a way in memory exactly when the call that ended it named that way; a reconnection replays a rejection exactly for files ended by a rejecting call, likewise for the other kinds |
| `DownloadKinds.RestoredAsRecorded` | drop-transfer/src/manager.rs:1073-1109 | at any point of any life, a file whose only recorded end is of a kind is restored as ended in that way |
| `DownloadKinds.RestoredInOrder` | drop-transfer/src/manager.rs:1073-1109 | of several recorded ends a rejection counts before a completion and that before a failure, which also stands for an unrecorded end |
| `DownloadKinds.EveryEndIsTold` | drop-transfer/src/ws/server/mod.rs:996-1037 | every file that was ended has been reported as ended, or its report with that kind is due |
| `DownloadKinds.ToldIsNamed` | drop-transfer/src/ws/server/mod.rs:996-1037 | over any life, a file is reported as ended in a way only when a winning call or a finished job named that way |
| `DownloadKinds.EntryKeepsPeer` | drop-transfer/src/manager.rs:113-147 | as long as its row is not collected, an entry keeps its peer and its files, restarts and requests of others included |
| `DownloadKinds.ConnectionIsThePeers` | drop-transfer/src/manager.rs:1318-1341 | the connection an entry holds was brought by a request of its own peer for exactly its files, with no disconnect, cancellation, removal or restart since |
| `DownloadKinds.CancelIsReported` | drop-transfer/src/ws/events.rs:565-575 | a cancelled transfer has been reported as cancelled by this side or is about to be |
| `DownloadKinds.RemovalIsReported` | drop-transfer/src/ws/server/mod.rs:617-625 | a transfer in use that the peer closes is reported so |
| `DownloadKinds.PurgedIsCollected` | drop-storage/src/lib.rs:940-976 | a removed transfer whose closing was reported is collected once recorded, purged and restarted, and its id is new again |
| `Resume.ChecksumDesk.OnChecksum` | drop-transfer/src/ws/server/v6.rs:341-371 | a report of the whole file is kept unless one was, any other goes to the running job |
| `Resume.ChecksumDesk.TakeHonest` | drop-transfer/src/ws/server/v6.rs:126-165 | honest reports in any order leave the true digest of the whole file and only true answers for the job |
| `Resume.Download.Init` | drop-transfer/src/ws/server/v6.rs:588-640 | the offset is the partial length exactly when the digests match, 0 otherwise, unknown when the connection is lost |
| `Resume.Download.Open` | drop-transfer/src/ws/server/v6.rs:642-650 | truncates at offset 0, keeps the partial file otherwise |
| `Resume.Download.ConsumeChunks` | drop-transfer/src/ws/server/mod.rs:711-745 | the receive loop: what is written, reported and used; never more than the size; the unexpected-data check never fires; unless stopped, the last report is less than the threshold behind |
| `Resume.Download.Run` | drop-transfer/src/ws/server/mod.rs:685-815 | a whole attempt: outcome, partial file, placed bytes and progress |
| `Resume.ReceiveWrites` | drop-transfer/src/ws/server/mod.rs:719-739 | the written bytes are the start followed by chunks, within the size, and equal to it when the loop ends by itself |
| `Resume.ReceiveUses` | drop-transfer/src/ws/server/mod.rs:719-739 | at most one chunk per missing byte is used |
| `Resume.StreamBounds` | drop-transfer/src/ws/server/mod.rs:711-745 | progress starts at the offset, rises by 65536 at least, at most 1 + (size - offset)/65536 reports, for any peer |
| `Resume.ReadCount` | drop-transfer/src/file/reader/path.rs:28-34 | a read is empty exactly at the end of the file, and within buffer and file |
| `Resume.FileReader.ReadChunk` | drop-transfer/src/file/reader/mod.rs:52-77 | chunk, end, modified file and changed size, each told apart; a chunk is never empty |
| `Resume.FileReader.SendFile` | drop-transfer/src/ws/client/mod.rs:557-565 | the upload loop sends what the reads yield and stops at the first that is no chunk |
| `Resume.SendsSource` | drop-transfer/src/ws/client/mod.rs:546-566 | over an unmodified source the chunks spell out its bytes from the offset, however reads split it, and the loop ends exactly at its end |
| `Resume.PlacedIsSource` | drop-transfer/src/ws/server/v6.rs:658-680 | only bytes with the reported digest are placed |
| `Resume.OnlySourceIsPlaced` | drop-transfer/src/ws/server/mod.rs:747-795 | over any history of edits, interruptions, chunk sizes and wrong answers, only the sender's bytes are ever placed |
| `Resume.HonestAttempt` | drop-transfer/src/ws/server/v6.rs:588-650 | with an honest sender the partial file is a prefix of the source once open and afterwards, and the attempt is placed or stopped |
| `Resume.ResumesAtLength` | drop-transfer/src/ws/server/v6.rs:594-632 | a prefix of the source whose report arrives is resumed exactly at its length |
| `Resume.HonestNeverFails` | drop-transfer/src/ws/server/v6.rs:658-680 | over any history with an honest sender no size check and no final validation fails |
| `Resume.EndToEnd` | drop-transfer/src/ws/client/mod.rs:546-566 | upload loop and download job together place the source |
| `ResumeProgress.ReceivesExactly` | drop-transfer/src/ws/server/mod.rs:719-739 | exactly which bytes are written at each of the four ways the loop ends, and when each happens |
| `ResumeProgress.ReportedIff` | drop-transfer/src/ws/server/mod.rs:731-736 | a written length is reported exactly when it is at least the threshold above every report before it, but for the one whose report cannot be sent |
| `ResumeProgress.ReportsAreLengths` | drop-transfer/src/ws/server/mod.rs:731-736 | nothing else is reported |
| `ResumeProgress.ReportsAreOften` | drop-transfer/src/ws/server/mod.rs:731-736 | with chunks of bounded size, at least one report for each threshold and one chunk |
| `ResumeProgress.AttemptReports` | drop-transfer/src/ws/server/mod.rs:711-745 | a placed file was reported to within the threshold of its end, and as often as that |
| `ResumeProgress.StoppedKeeps` | drop-transfer/src/ws/server/mod.rs:771-789 | the partial file is kept exactly when the attempt was stopped, with all that was received; each other outcome and when it happens |
| `ResumeProgress.NothingFetchedTwice` | drop-transfer/src/ws/server/v6.rs:588-640 | what a stopped attempt received is where the next one starts |
| `ResumeProgress.SendsUnmodified` | drop-transfer/src/file/reader/mod.rs:52-77 | each chunk sent is what its read found at the place reached, in a file unmodified and as long as announced |
| `ResumeProgress.SendsUntil` | drop-transfer/src/ws/client/mod.rs:557-565 | the upload stops at the first read that gives no chunk, for modification exactly when that read finds it |
| `Checksum.AnnounceUpTo` | drop-transfer/src/file/mod.rs:364-369 | the inner loop announces exactly the multiples reached |
| `Checksum.Compute` | drop-transfer/src/file/mod.rs:327-377 | on every input on which it comes to an end, for every split into reads: the digest of what comes before the first empty read, and g, 2g, ... up to the total, then the total if it is no multiple |
| `Checksum.InnerLoopEndsIff` | drop-transfer/src/file/mod.rs:364-369 | the inner loop reaches a count at which it stops exactly when the granularity is not zero |
| `Checksum.EndsIff` | drop-transfer/src/file/mod.rs:340-374 | the whole comes to an end exactly when nobody listens, the granularity is not zero, or the first read is empty |
| `Checksum.ZeroGranularityNeverEnds` | drop-transfer/src/file/mod.rs:364-369 | one byte, a listener and a granularity of zero: no number of turns is enough |
| `Checksum.AnnouncementsCover` | drop-transfer/src/file/mod.rs:343-354 | announcements rise by at most the granularity and end at the total |
| `Checksum.AnnouncedValues` | drop-transfer/src/file/mod.rs:343-374 | each announced value, with and without a granularity, and how many |
| `Names.Normalize` | drop-transfer/src/utils.rs:105-147 | same length; illegal and control characters become underscores, every other stays; unchanged exactly when there was none |
| `Names.NormalizedText` | drop-transfer/src/utils.rs:105-147 | none of the nine characters and no control character is left |
| `Names.PartsOf` | drop-transfer/src/utils.rs:85-101 | no parts exactly for names that are no file name; stem and extension make up the name and split at its last dot |
| `Names.DecimalStandsFor` | drop-transfer/src/utils.rs:91-92 | the digits of a variant stand for its number |
| `Names.VariantParts` | drop-transfer/src/utils.rs:85-101 | a variant keeps the extension, and its stem is that of the name with the number in parentheses |
| `Names.DecimalInjective` | drop-transfer/src/utils.rs:91-92 | different numbers are written differently |
| `Names.VariantsDiffer` | drop-transfer/src/utils.rs:85-101 | variants are pairwise distinct |
| `Names.TakenBound` | drop-transfer/src/ws/server/v6.rs:701-711 | the search tries no more names than are in use before it finds one |
| `Names.ClaimName` | drop-transfer/src/ws/server/v6.rs:701-720 | the search ends with the name the root has, or the first free one for a new root |
| `Names.RenameRoots` | drop-transfer/src/ws/server/v6.rs:692-732 | the renaming loop, over any numbering of names |
| `Names.MapFiles` | drop-transfer/src/ws/server/v6.rs:692-732 | fails exactly on a root that is no file name; otherwise same output root exactly for the same original root, ids, sizes, order and depths kept, every component below the root the normalized one, root among the first i + 1 variants and the first one plain |
| `DirMapping.DirMapping.ComposeFinalPath` | drop-transfer/src/manager.rs:887-937 | reuses a known directory, otherwise remembers the first free variant; every component below it is the normalized one of the subpath; no other mapping changes; an empty subpath is refused |
| `DirMapping.SamePlaceIff` | drop-transfer/src/manager.rs:887-937 | two files of one directory go to the same place exactly when their subpaths are the same below the root, up to replaced characters |
| `DirMapping.DifferentPlaces` | drop-transfer/src/manager.rs:887-937 | files of differently named directories, and single files, never meet |
| `DirMapping.DirMapping.RegisterAll` | drop-transfer/src/manager.rs:1140-1147 | the cache rebuilt from the placed files, later ones over earlier ones |
| `DirMapping.RebuiltLast` | drop-transfer/src/manager.rs:939-947 | the last placed file of a directory decides, and no other mapping changes |
| `DirMapping.FindFree` | drop-transfer/src/manager.rs:911-917 | the search ends with the first variant that does not exist |
| `DirMapping.NormalizedTwice` | drop-transfer/src/utils.rs:105-147 | normalizing a path again changes nothing |
| `DirMapping.ExtractUndoesCompose` | drop-transfer/src/manager.rs:1296-1316 | normalized subpath and final path give back key and directory whatever the file was called; the original subpath does exactly when its root is clean |
| `DirMapping.MappingStays` | drop-transfer/src/manager.rs:897-901 | within a run a mapping never changes |
| `DirMapping.LaterFilesFollow` | drop-transfer/src/manager.rs:1140-1147 | over runs and restarts, later files of a root go where a placed file of it went |
| `Tree.AddFile` | drop-transfer/src/protocol/v1.rs:74-104 | the walk pushes missing directories and goes into the first node of each name |
| `Tree.Build` | drop-transfer/src/protocol/v1.rs:70-108 | the whole request, for any order of the files |
| `Tree.ProcessFile` | drop-transfer/src/ws/server/v2.rs:490-507 | pushes the files below a node, in order |
| `Tree.FlattenInsert` | drop-transfer/src/protocol/v1.rs:84-103 | an added file is found again unless it is blocked, and no other file is touched |
| `Tree.LookupInsert` | drop-transfer/src/protocol/v1.rs:84-103 | adding a file settles the empty places on its path and nothing else |
| `Tree.BlockedIsShadowed` | drop-transfer/src/ws/server/v2.rs:495-505 | a walk is blocked exactly when an earlier file has the path of one of its directories and came first there |
| `Tree.RoundTrip` | drop-transfer/src/ws/server/v2.rs:489-512 | building and flattening gives back exactly the files that are not shadowed, as often as they occur |
| `Tree.NothingLostIff` | drop-transfer/src/protocol/v1.rs:70-108 | the multiset of files survives exactly when none is shadowed |
| `Tree.ShadowedFileIsLost` | drop-transfer/src/protocol/v1.rs:84-103 | the list of `a` and `a/b` loses `a/b`, in the other order nothing |
| `Tree.PrefixFreeRoundTrip` | drop-transfer/src/ws/server/v2.rs:489-512 | in particular when no path is a proper prefix of another |
| `ChunkCodec.LengthRoundTrip` | drop-transfer/src/protocol/v6.rs:167-168 | little-endian lengths read back |
| `ChunkCodec.LengthBytesRoundTrip` | drop-transfer/src/protocol/v6.rs:148-149 | and the other way round |
| `ChunkCodec.Layout` | drop-transfer/src/protocol/v6.rs:162-173 | the bytes on the wire: length, least significant byte first, id, data |
| `ChunkCodec.Decode` | drop-transfer/src/protocol/v6.rs:143-160 | refuses short messages, bad lengths and bad UTF-8, on a machine of any word size; never yields an empty chunk |
| `ChunkCodec.Utf8Iff` | drop-transfer/src/protocol/v6.rs:153-155 | an id is accepted exactly when its bytes spell out characters, as in section 4 of RFC 3629 |
| `ChunkCodec.WordShowsIff` | drop-transfer/src/protocol/v6.rs:148-151 | the machine's word size matters exactly when the length plus four does not fit it, never with more than 32 bits |
| `ChunkCodec.DecodeUndoesEncode` | drop-transfer/src/protocol/v6.rs:143-173 | a chunk survives exactly when it has data and its id is shorter than 2^32 |
| `ChunkCodec.EncodeUndoesDecode` | drop-transfer/src/protocol/v6.rs:143-173 | every accepted message is the encoding of what it gave |
| `ChunkCodec.SubPathChunkRoundTrip` | drop-transfer/src/file/id.rs:133-151 | the same for ids that are subpaths, exactly when no component holds the separator |
| `Splitting.JoinUndoesSplit` | drop-transfer/src/file/id.rs:133-151 | splitting loses nothing |
| `Splitting.SplitUndoesJoin` | drop-transfer/src/file/id.rs:133-151 | joined components come back exactly when there is one and none holds the separator |
| `AuthHeader.Parameter` | drop-auth/src/http.rs:65-71 | a parsed value starts and ends with no quote and is part of the header |
| `AuthHeader.CollectAll` | drop-auth/src/http.rs:61-80 | the loop over the parameters: the first point at which both are known decides |
| `AuthHeader.ParseAuthorization` | drop-auth/src/http.rs:52-83 | the whole parser |
| `AuthHeader.ParseNonce` | drop-auth/src/http.rs:23-46 | the whole parser of the challenge |
| `AuthHeader.CollectIsCarried` | drop-auth/src/http.rs:61-80 | whatever the header, parsed values have no comma and no quote at their ends |
| `AuthHeader.AuthorizationRoundTrip` | drop-auth/src/http.rs:52-96 | printing and parsing gives ticket and nonce back exactly when both have no comma and no quote at their ends |
| `AuthHeader.NonceRoundTrip` | drop-auth/src/http.rs:23-50 | the same for the challenge |
| `AuthHeader.HeaderText` | drop-auth/src/http.rs:48-96 | the headers letter by letter |
| `AuthHeader.TurnedParses` | drop-auth/src/http.rs:61-80 | the order of ticket and nonce does not matter |
| `AuthHeader.ParameterLoosely` | drop-auth/src/http.rs:65-71 | blanks around a parameter and its equals sign, and several quotes, do not matter |
| `AuthHeader.OthersPassedOver` | drop-auth/src/http.rs:68-71 | parameters of other names are passed over |
| `AuthHeader.CollectOrder` | drop-auth/src/http.rs:64-80 | a piece that is no parameter refuses the header; a ticket or nonce that comes again before the other replaces the first |
| `AuthHeader.SchemeDecides` | drop-auth/src/http.rs:52-60 | another scheme is refused, blanks before the scheme are not |
| `AuthHeader.Base64RoundTrip` | drop-auth/src/lib.rs:76-104 | base64 values always survive |
| `Progress.LastCountMeaning` | drop-transfer/src/storage_dispatch.rs:168-192 | the count of a file is that of the one report that nothing has replaced, stopped or ended since |
| `Progress.CountAfter` | drop-transfer/src/storage_dispatch.rs:21-166 | what each event does to the count of a file |
| `Progress.CastKeeps` | drop-transfer/src/storage_dispatch.rs:176-183 | the cast to the signed column keeps the count up to its range, exactly when it fits |
| `Progress.StorageDispatch.GetFileProgress` | drop-transfer/src/storage_dispatch.rs:168-174 | the noted count or 0, which is forgotten, and no other |
| `Progress.StorageDispatch.StoreProgress` | drop-transfer/src/storage_dispatch.rs:176-183 | notes this file's count and no other |
| `Progress.StorageDispatch.ClearTransfer` | drop-transfer/src/storage_dispatch.rs:185-187 | forgets the counts of this transfer and no other |
| `Progress.StorageDispatch.HandleEvent` | drop-transfer/src/storage_dispatch.rs:21-166 | the map always holds the last counts of the event history, and failed, rejected and paused events are stored with them |
| `Throttle.Throttle.Begin` | drop-transfer/src/ws/client/throttle.rs:20-51 | takes a free permit and reports the start, or queues and reports the wait; the count is conserved |
| `Throttle.Throttle.Acquire` | drop-transfer/src/ws/client/throttle.rs:53-76 | a waiting job goes on exactly when it holds a permit, and reports the start then |
| `Throttle.Throttle.Drop` | drop-transfer/src/ws/client/mod.rs:547 | a finished or aborted job leaves neither a permit nor a place in the queue behind |
| `Throttle.WaitingEnds` | drop-transfer/src/ws/client/throttle.rs:60-66 | a waiting job holds a permit once more permits were given back than jobs waited before it |
| `Throttle.StepConserves` | drop-transfer/src/ws/client/throttle.rs:20-76 | free plus held permits stay 4, and nobody waits while one is free |
| `Throttle.StepAccounts` | drop-transfer/src/ws/client/throttle.rs:46-76 | every reported start is a permit taken, an abortion between grant and start included |
| `Throttle.EveryWaitIsReported` | drop-transfer/src/ws/client/throttle.rs:33-51 | whoever waits has been reported as throttled, in every interleaving |
| `Throttle.EveryRunConserves` | drop-transfer/src/ws/client/mod.rs:536-592 | both in every interleaving of starting, waiting, finishing and aborting |
| `Backoff.RetryTrigger.Backoff` | drop-transfer/src/utils.rs:34-46 | the pause chosen and the count left; the count stays below the retries and the pause below 2^retries |
| `Backoff.RetryTrigger.PausesUntilStuck` | drop-transfer/src/ws/client/mod.rs:87-97 | the pauses of a run without a refresh |
| `Backoff.AttemptsAndPauses` | drop-transfer/src/utils.rs:34-46 | between refreshes max(1, retries) attempts with pauses 1, 2, 4, ... adding up to 2^(retries-1) - 1 |
| `Backoff.ShiftsFitIff` | drop-transfer/src/utils.rs:36 | no shift leaves 32 bits exactly for up to 33 retries |

## Left out

- Sockets, HTTP upgrades, JSON, pings, timeouts and rate limits: a connection is two queues that deliver in order or break.
- X25519, HMAC, SHA-256 and base64 internals; SQL text, migrations and failing storage writes.
- A crash inside a locked manager method, between two of its storage calls.
- Protocols v4 and v5 and the streaming of v2: only the v2 flattening and the v1 tree are modelled.
- Filesystem errors and edits of the partial file while an attempt runs; the final move between file systems.
- The Windows rules for file names, symbolic links, and uniqueness of directories chosen by two transfers at once.
- `Manager.TransferManager.RegisterIncoming`: compares peer, ids and sizes; the mime types the source compares as well
  are one constant for every received file (drop-transfer/src/file/mod.rs:138-140).
- `Manager.TransferManager.RestoreTransfersState`: why a transfer is not valid (an address or URI that does not parse,
  a file that is gone, too many files) is a parameter; what becomes of such a transfer later is not followed.
- `Manager.TransferManager.RestoreIncoming`: the same parameter, for one transfer.
- `Manager.TransferManager.RestoreOutgoing`: the same, which includes URIs that do not parse and files that cannot be reopened.
- `Settling.Converges`: counts the steps that are made; that a download job which is running ends at some time is
  taken for granted, as it depends on the disk and on the peer sending chunks.
- `Settling.ReconnectionConverges`: the same assumption.
- `Resume.Download.Init`: the request of a report and its travel are not modelled, only what is done with the reports.
- Content URIs and file descriptors: only sources read from a path.
- The limit on the number of files and the refusal of empty transfers when a transfer is created.
- Removing a rejected file's row from the history, `transfers_since`, analytics, logging, quarantine, the FFI.
- `Tree.AddFile`: the walk through a mutable reference is modelled by rebuilding the path on values, so aliasing is not captured.
- `Throttle.Throttle.Drop`: hands a returned permit to the first waiter at once, which is taken from the semaphore of the async
  runtime, a library.
- `Names.Variant`: the numbering is a 32-bit signed integer in the source and unbounded here; it would wrap after 2^31 files.
