# HomeAgent: a verified model of its state machines

HomeAgent is a server with agents on devices and durable state on both sides. This project models the state
machines that its guarantees rest on and proves those guarantees for every input and every run, including runs in
which writes fail, messages are lost or repeated, and processes die between two disk operations.

`dafny verify dfyconfig.toml` checks everything.

## How it is organised

Each area has a specification of one step as a function (or relation) of the state, invariants and run theorems about
that specification, and a class whose methods work as the source does, each proved to have the specified effect. The
files ending in `Laws`, and those on links, uploads, accounts, results and text, say what a step or a run comes to in
terms of requests, facts and stored values alone, without the functions of the specification.

| area | files | what is modelled |
|---|---|---|
| shared | `Basics.dfy`, `Totals.dfy`, `Text.dfy`, `Histories.dfy` | options, time, sums over maps; Go's trimming and searching of strings; what a restart from a file undoes of a history |
| file relay | `FileRelay.dfy`, `FileRelayProofs.dfy`, `FileRelayLinks.dfy`, `FileRelayUploads.dfy`, `FileRelayService.dfy` | uploads as transactions with reservations, the disk as metadata, blobs and partials, crashes between disk operations, recovery |
| health | `Health.dfy`, `HealthLaws.dfy`, `HealthRuns.dfy` | one evaluation of a device, its result in terms of the facts, and chains of evaluations |
| alerting | `Alerting.dfy`, `AlertingRuns.dfy`, `HealthService.dfy`, `Deliveries.dfy`, `DeliveryLaws.dfy` | alerts folded from the events of evaluations, notifications, delivery attempts and retries |
| commands | `CommandLedger.dfy`, `CommandResults.dfy`, `CommandDelivery.dfy`, `DeliveryByBroker.dfy` | the agent's durable command stages and its cursor, in memory and on disk; server, connection and agent together |
| event stream | `EventStream.dfy`, `EventStreamLaws.dfy`, `Replays.dfy`, `Broker.dfy`, `BrokerQueues.dfy` | the event framing and its reader; bounded history, replay, queues |
| DNS | `Prefixes.dfy`, `Ddns.dfy`, `DdnsLaws.dfy`, `ServerNetwork.dfy`, `ServerNetworkLaws.dfy` | candidate addresses, the grace period, the debounce, write and verify |
| revisions | `Revisions.dfy`, `RevisionLaws.dfy` | the agent's counter, the server's snapshots, recovery from conflicts |
| sessions | `Sessions.dfy`, `SessionRuns.dfy`, `AccountRuns.dfy`, `SessionService.dfy` | users, sessions and revocation, with restarts; what every account is over runs |
| registry | `Registry.dfy`, `RegistryRuns.dfy`, `RegistryService.dfy` | devices, grants and their two indexes; who sees what over runs with restarts |
| SSH block | `SshBlock.dfy`, `SshBlockText.dfy` | inserting, replacing and removing the managed block; its text and the text around it |

## Conventions

The clock, random identifiers and tokens, free disk space, and the result of each disk operation and network call are
parameters. Hashes, fingerprints and tokens are identifiers that are equal only when what they stand for is equal.
Persistence is an atomic replacement that happens or does not; where the source can report an error after the
replacement, that is a third outcome (`Revisions.Outcome`). Integers are unbounded except revisions, whose largest value is
`Revisions.MAX_REVISION`. A section under one lock is one step.

Histories are never forgotten: an entry is *undone* when a restart follows it before anything was written. What the
process stands on after a restart is then a statement about entries that were undone and entries that were not.

## Where the code does less than one might expect

Each is proved as an exact condition and shown by a lemma with a concrete run or input:

- A command is lost at a crash exactly if it has not run and either its durable record is over, or it is not found
  interrupted and the server cannot send it to the cursor in the file any more (`CommandDelivery.LostAtCrashExactly`).
  - The agent saves its cursor before it begins a command, in the same file. A crash in between, or while the record is
    prepared, loses the command exactly unless the history still has the file's cursor and has the command after it
    (`CommandDelivery.CrashBeforeStartLosesExactly`, `CommandDelivery.SavedCursorLosesCommand`); a cursor whose write
    failed is saved by the next write of the ledger (`CommandDelivery.PreparedCommandIsLost`).
  - Confirming the *accepted* acknowledgement already makes the record final, so a crash before the side effect loses a
    command of any kind, even if it is sent again (`CommandLedger.AcceptedThenCrashedIsLost`).
- A final stage does not mean that the side effect has run: it still runs exactly if it was granted and waits in the
  same process (`CommandLedger.RunsAfterFinalExactly`).
- A replay can leave out events without a sign: exactly if the place where the agent stopped has left the history and
  one of the last 64 events carries its ID again, as a command does that was queued again
  (`Broker.ReplayCoversExactly`, `Broker.RepublishedIdSkips`).
- An acknowledged upload survives exactly unless a start-up cannot read the status of its blob
  (`FileRelayProofs.AcknowledgedUploadSurvives`, `FileRelayProofs.UnreadBlobIsGivenUp`).
- A session that was ended is accepted again exactly if every entry that ended it was undone
  (`SessionRuns.AcceptedExactlyWhileLive`); a revocation whose save fails is undone by the next restart
  (`SessionRuns.UnwrittenRevocationIsUndone`). The user's version does not prevent this: it comes from the same file.
- The last active owner vanishes exactly when a restart comes before anything was written since the first one was made
  (`SessionRuns.OwnerIsLostExactly`, `SessionRuns.UnwrittenOwnerIsLost`).
- In the registry, too, a failed write leaves the change in memory and a restart undoes it
  (`RegistryRuns.SeesExactlyByHistory`, `RegistryRuns.UnwrittenRevocationIsUndone`).
- A deletion whose write fails keeps the device but has lost its grants; that is harmless exactly if nobody but the
  owner had one (`Registry.FailedDeleteIsHarmlessExactly`, `Registry.FailedDeleteExample`).
- When the events of an evaluation cannot be stored, the alerts still mirror the reasons exactly if there was no event
  (`Alerting.LostEventsBreakMirror`, `Alerting.LostEventLeavesReasonWithoutAlert`).
- The applied address is lost track of exactly when the provider took a change and the write noting it fails
  (`Ddns.AppliedIsRecordExactly`, `Ddns.UnnotedChangeIsLost`).
- Writing the same path twice is a no-op exactly when the text has no marker, or has the block and only line ends after
  it (`SshBlock.IdempotentExactly`, `SshBlock.BeginAloneIsNotIdempotent`, `SshBlock.TextAfterBlockIsNotIdempotent`).
- A server's conflict passes the agent's guard exactly if revisions are not exhausted
  (`Revisions.HonestConflictPassesExactly`, `Revisions.ConflictAtTheLimitIsRefused`).
- Recorded delivery attempts are all attempts made exactly if no restart came before one was written; a delivered but
  unwritten attempt is made again (`Deliveries.RecordedIsMadeExactly`, `Deliveries.UnwrittenDeliveryIsRepeated`).
- A reconcile that finds the address again ends a running grace period exactly if it can store something
  (`Ddns.FindingEndsGraceExactly`); otherwise the record is deleted although it was found within the grace period
  (`Ddns.UnstoredFindingIsForgotten`).

The comments of `internal/prefixstate/prefix.go` and `internal/networkaddr/address.go` call two lists with equal content equal; the
comparisons ignore the end of validity. The model follows the code: a revision is accepted with one *compared* content
(`Revisions.AcceptedInRevisionOrder`), and the ignored part may differ (`Revisions.IgnoredPartsMayDiffer`).

## Model

| member | source | states |
|---|---|---|
| FileRelayService.Service.BeginUpload | internal/fileshare/service.go:216-236 | admits an upload and holds its reservation, or refuses for the same reasons as the source |
| FileRelayService.Service.AcquireChunk | internal/fileshare/service.go:605-633 | a growing upload gets its chunk reserved exactly when used, reserved and chunk fit the quota and the disk has room |
| FileRelayService.Service.CommitUpload | internal/fileshare/service.go:279-321 | the commit under the lock, with every outcome of rename, metadata write and undo, is the specified step |
| FileRelayService.Service.Delete | internal/fileshare/service.go:355-384 | the links go first, then the blob, then the file and its bytes; a blob that cannot be removed leaves the file marked |
| FileRelayService.Service.CreateLink | internal/fileshare/service.go:412-459 | a link is stored for an existing file, expires when the asked duration is over or with the file, whichever is first, and is taken back when its write fails |
| FileRelayService.Service.RevokeLink | internal/fileshare/service.go:477-490 | a link of this file is revoked at once; if that was written it is dead on disk too |
| FileRelayService.Service.OpenPublicFile | internal/fileshare/service.go:492-525 | a download is given only through a live link to a ready file; not found means no ready file or no link with that token |
| FileRelayService.Service.CleanupExpired | internal/fileshare/service.go:527-544 | deletes every file that was expired or marked, touches no other, and reports whether all deletions succeeded |
| FileRelayService.Service.Recover | internal/fileshare/service.go:162-209 | start-up leaves the specified store: files whose blob status it could read, no orphans, counters recomputed |
| FileRelayProofs.StepConserves | internal/fileshare/service.go:216-321 | after every step the used counter is the sum of file sizes and the reserved one the sum held by uploads |
| FileRelayProofs.StepKeepsQuota | internal/fileshare/service.go:223-235 | used plus reserved never exceeds the quota once it does not |
| FileRelayProofs.CommitAlwaysFits | internal/fileshare/service.go:287-293 | the second quota check at commit can never refuse |
| FileRelayProofs.DeleteConserves | internal/fileshare/service.go:379-382 | a deletion subtracts exactly the file's size, so the clamp at zero never acts |
| FileRelayProofs.HeldWithinReserved | internal/fileshare/service.go:605-633 | no release can make the reserved counter negative |
| FileRelayProofs.NothingReservedWhenIdle | internal/fileshare/service.go:237-242 | each reservation is released exactly once: none is left when no upload is running |
| FileRelayProofs.CrashKeepsDisk | internal/fileshare/service.go:294-310 | a crash at any point of any operation leaves a disk from which every acknowledged file can be served |
| FileRelayProofs.RecoveredStore | internal/fileshare/service.go:162-209 | after recovery the files are those whose blob status could be read, metadata and blobs name the same files, no partials are left and used is their total size |
| FileRelayProofs.RunKeeps | internal/fileshare/service.go:139-209 | all of this holds over every interleaving with crashes and restarts |
| FileRelayProofs.EveryRunIsSound | internal/fileshare/service.go:109-137 | a service started on an empty directory keeps its counters and its quota in every run |
| FileRelayProofs.AcknowledgedUploadSurvives | internal/fileshare/service.go:175-190 | until its deletion is asked for an acknowledged upload stays, with its size, exactly unless a start-up could not read the status of its blob |
| FileRelayProofs.UnreadBlobIsGivenUp | internal/fileshare/service.go:175-203 | one opening serves the file, one that cannot read its status removes it |
| FileRelayProofs.AcknowledgedDeletionStands | internal/fileshare/service.go:355-384 | an acknowledged deletion is never undone |
| FileRelayLinks.FileExpiresAfterRetention | internal/fileshare/service.go:279-321 | in every run with crashes a file expires the retention days after the commit that made it |
| FileRelayLinks.NoDownloadAfterItsTime | internal/fileshare/service.go:412-525 | in every run a link serves only until its creation plus its duration, which is one of the four, and until the file's commit plus the retention |
| FileRelayLinks.LinkServes | internal/fileshare/service.go:492-525 | a link that was made serves downloads at exactly the moments before its expiry, through failing writes, crashes and restarts, unless its revocation or the deletion of its file was asked for or a start-up gave the file up |
| FileRelayLinks.RevokedServesNothing | internal/fileshare/service.go:477-490 | a revocation that was written stands for good |
| FileRelayUploads.OnlySyncedUploadsAreFiles | internal/fileshare/service.go:237-321 | in every run only uploads whose data were synced became files |
| FileRelayUploads.PartialsAreRemoved | internal/fileshare/service.go:162-242 | no partial outlives its upload unless the file system refused to remove it |
| FileRelayUploads.FileHoldsWhatWasReceived | internal/fileshare/service.go:216-321 | in every run with crashes a file and its blob are exactly as long as the bytes its upload received |
| FileRelayUploads.DeclaredUploadIsStored | internal/fileshare/service.go:216-321 | an upload of a declared size that fits, and all of which arrives, is stored, acknowledged and counted, and leaves nothing behind |
| FileRelayUploads.UndeclaredUploadIsStored | internal/fileshare/service.go:216-321 | so is one of unknown size, which reserves what it needs chunk by chunk |
| HealthRuns.ThresholdsExclusive | internal/health/evaluator.go:347-491 | a sample never both exceeds a limit and has recovered, on either side of the 8 GiB switch |
| HealthRuns.FiringIffTripped | internal/health/evaluator.go:347-491 | a streak rule fires exactly when a long enough run of exceeding samples has not been followed by a recovery |
| HealthRuns.ResourceRulesFireExactly | internal/health/evaluator.go:347-491 | over any chain: two samples in a row for the disk, three for memory, a missing sample counts as recovered |
| HealthRuns.EventsAlternate | internal/health/evaluator.go:585-661 | per code, opened, changed and resolved alternate, and an open period is exactly a firing reason first observed at its opening |
| HealthRuns.SinceIsStatusStart | internal/health/evaluator.go:516-551 | since is the time at which the current status was entered |
| HealthRuns.SilenceOnlyWorsens | internal/health/evaluator.go:83-162 | without a new heartbeat liveness only moves none, stale, offline and is offline once old enough |
| HealthLaws.ReasonsFireExactly | internal/health/evaluator.go:83-491 | for each of the fifteen codes the exact facts on which it fires, its severity, and that it keeps the time at which it first did |
| HealthLaws.RecordedExactly | internal/health/evaluator.go:83-491 | what is recorded without firing: a device never seen, a version that cannot be compared, a resource whose samples are being counted |
| HealthLaws.StatusExactly | internal/health/evaluator.go:516-551 | the status by the reasons: never-seen, offline, degraded and healthy each exactly when |
| HealthLaws.HealthyExactly | internal/health/evaluator.go:60-570 | a device is healthy exactly if its heartbeat, version, keys, DDNS record, upgrade, disk and memory are each in order, in terms of the facts |
| HealthLaws.EventsExactly | internal/health/evaluator.go:585-661 | a code has an event exactly if it began or stopped firing or changed its severity, and what the event carries |
| HealthService.CollectFindings | internal/health/evaluator.go:83-491 | the rules in turn report exactly the findings of the specification |
| HealthService.OverallStatus | internal/health/evaluator.go:516-551 | never-seen and offline by their reasons; otherwise degraded exactly if some reason fires with a warning or critical severity, and healthy exactly if none does |
| HealthService.GenerateEvents | internal/health/evaluator.go:585-661 | the comparison of two snapshots yields each changed code's event once |
| HealthService.Assess | internal/health/evaluator.go:60-570 | the evaluation computes the specified snapshot |
| HealthService.HealthMonitor.EvaluateDevice | internal/health/service.go:137-168 | an evaluation stores its snapshot and hands its events to alerting: one step of the combined machine |
| HealthService.AlertService.FindActiveAlert | internal/alerting/repository.go:166-177 | finds the device's active alert for the code |
| HealthService.AlertService.HandleSingleEvent | internal/alerting/service.go:100-184 | opens, updates or resolves the alert of an event, and hands out its notification unless a silence holds it back |
| HealthService.AlertService.HandleHealthEvents | internal/alerting/service.go:92-98 | the events of an evaluation are handled in order |
| Alerting.AlertsMirrorReasons | internal/alerting/service.go:100-184 | in every run firing alerts are one for one the firing reasons with their severity; a resolved notification is sent at most once and only after a delivered firing one |
| Alerting.RunKeepsInv | internal/alerting/service.go:130-184 | resolved alerts never change again, whatever evaluations and retries follow |
| AlertingRuns.NotifiedExactlyIfReached | internal/alerting/service.go:130-184 | in every run an alert is notified exactly if an evaluation that opened or changed it met no silence and a channel took it, or a retry delivered it while it fired |
| AlertingRuns.SentExactly | internal/alerting/service.go:130-184 | how often firing and resolved notifications are handed out: once for each unsilenced opening or change until somebody took it, and for the unsilenced end of an alert that somebody took |
| AlertingRuns.SilencedRunIsQuiet | internal/alerting/service.go:136-165 | while every event is silenced and nothing is retried, nothing is handed out |
| AlertingRuns.TakenRunNotifiesAll | internal/alerting/service.go:136-165 | without silences and with a channel that takes everything, every alert is notified |
| AlertingRuns.EventWritesAlert | internal/alerting/service.go:100-184 | what one event writes: a new alert, the changed one with its severity and revision, or its end |
| Alerting.LostEventsBreakMirror | internal/health/service.go:146-163 | an evaluation whose events are lost keeps the mirror exactly if it had no event |
| Alerting.LostEventLeavesReasonWithoutAlert | internal/health/service.go:146-163 | a lost event leaves a firing reason without an alert |
| Deliveries.AttemptLog.RecordDeliveryAttempt | internal/alerting/repository.go:263-272 | an attempt is appended and the log kept at its bound |
| Deliveries.AttemptLog.ListPendingRetries | internal/alerting/repository.go:315-336 | the pending retries are exactly the keys whose newest attempt asks for one |
| Deliveries.LatestIsLast | internal/alerting/repository.go:315-336 | the newest attempt found for a key is the last one of its chain |
| Deliveries.AttemptsFormChains | internal/alerting/service.go:199-398 | over all runs with restarts the recorded attempts are numbered from one to at most six and none follows a delivered or final one |
| Deliveries.RecordedIsMadeExactly | internal/alerting/repository.go:263-272 | the recorded attempts are all that were made exactly if no restart came before an attempt was written |
| Deliveries.UnwrittenDeliveryIsRepeated | internal/alerting/service.go:365-398 | an attempt that was delivered but not written is made again after a restart |
| DeliveryLaws.RetryExactly | internal/alerting/service.go:258-341 | a due attempt is made if the alert still asks for it, and is followed by another exactly if it may be repeated and was not the sixth |
| DeliveryLaws.RestartResumesExactly | internal/alerting/service.go:365-398 | after a restart exactly those deliveries of relevant alerts go on whose last recorded attempt asked for another one, with the next number |
| DeliveryLaws.SixAttempts | internal/alerting/service.go:258-341 | a notification that nobody takes is tried six times and then given up |
| CommandLedger.CommandLedger.RecordEventId | internal/daemon/ledger.go:36-47 | the cursor moves in memory whether or not it can be saved; a repeated ID is not written |
| CommandLedger.CommandLedger.Begin | internal/daemon/ledger.go:84-93 | a new command is prepared and executed once; a known one is returned unchanged |
| CommandLedger.CommandLedger.Start | internal/daemon/ledger.go:114-125 | a start is granted exactly to a prepared command; when its write fails the stage has moved in memory only and the failure is reported |
| CommandLedger.CommandLedger.Interrupted | internal/daemon/ledger.go:103-113 | lists exactly the commands that were started and not finished |
| CommandLedger.CommandLedger.PendingAcks | internal/daemon/ledger.go:146-156 | lists exactly the committed results that were not confirmed |
| CommandLedger.ShutdownScheduledAtMostOnce | internal/daemon/client.go:751-766 | across redeliveries, failing writes, crashes and restarts one command schedules the shutdown at most once |
| CommandLedger.NoGrantAfterFinal | internal/daemon/ledger.go:114-145 | once a committed or confirmed stage is durable, the side effect of that command is never granted again |
| CommandLedger.RunsAfterFinalExactly | internal/daemon/client.go:371-377 | with a final stage durable, the side effect still runs exactly if it was granted and waits in this process |
| CommandLedger.RunsIfSentAgainExactly | internal/daemon/client.go:352-377 | a command that is sent again after a crash can run exactly if its durable record is not over: no final stage, and for a shutdown no stage after the first |
| CommandLedger.AcceptedThenCrashedIsLost | internal/daemon/client.go:709-743 | the accepted acknowledgement already confirms, so a crash before the side effect loses a command of any kind |
| CommandLedger.StartedThenCrashedRunsAgain | internal/daemon/client.go:523-532 | before any confirmation the same crash loses nothing but a shutdown: start-up runs the command without being sent it |
| CommandResults.EventLeadsExactly | internal/daemon/client.go:352-377 | what a command in hand leads to, for each stage of its record |
| CommandResults.CommandRunsThrough | internal/daemon/client.go:352-377 | with working writes a prepared command is granted, run once, committed, posted and confirmed, each stage in the file |
| CommandResults.RecordMovesExactly | internal/daemon/ledger.go:84-145 | the exact cases in which a record is prepared, started, committed and confirmed, in memory whether or not it can be written; a crash takes it back to the file |
| CommandResults.FileFollowsExactly | internal/daemon/ledger.go:157-193 | a write that works saves all of memory, including what earlier failed writes left there; without one the file stays |
| CommandResults.GrantedAndRunExactly | internal/daemon/client.go:751-766 | a side effect is granted exactly when the start of a prepared command is written |
| CommandResults.ReportIsPosted | internal/daemon/client.go:352-377 | an interrupted shutdown and a malformed payload are reported like a result, and nothing runs |
| CommandResults.ResultIsKeptUntilTaken | internal/daemon/ledger.go:126-156 | through failing writes, crashes and restarts a committed result waits in the file until the server takes it |
| CommandResults.WaitingResultIsPosted | internal/daemon/client.go:219-245 | while it waits the retry loop picks it up, also after a crash, and once taken it is confirmed |
| CommandDelivery.RunsAfterCrashExactly | internal/daemon/client.go:523-532 | after a crash a command runs exactly if its durable record is not over and either start-up finds it interrupted or the server may still send it to the saved cursor |
| CommandDelivery.LostAtCrashExactly | internal/daemon/client.go:310-377 | a command is lost at a crash exactly if it has not run and its record is over, or it is not interrupted and no run of server and agent gives it again |
| CommandDelivery.ReachWithoutRepeats | internal/broker/broker.go:105-121 | without repeated IDs a command can come again exactly if it stands after the cursor in the history |
| CommandDelivery.CrashBeforeStartLosesExactly | internal/daemon/client.go:315-324 | a command that is not begun or only prepared is lost exactly unless the history has the saved cursor and the command after it |
| CommandDelivery.SavedCursorLosesCommand | internal/daemon/client.go:315-324 | dying with an event in hand loses it if its cursor was saved, and only then |
| CommandDelivery.PreparedCommandIsLost | internal/daemon/ledger.go:84-93 | a cursor whose write failed is saved with the prepared record, and the command is lost |
| DeliveryByBroker.BrokerReplays | internal/broker/broker.go:105-121 | what the delivery model gives a reconnecting agent is what the broker gives it |
| EventStream.StreamReader.ReadStream | internal/daemon/client.go:294-350 | the reading loop is the specified reader |
| EventStream.RoundTrip | internal/api/api.go:1689-1697 | printing any list of well-formed events and reading it hands on exactly that list; the cursor is the last ID (section 9.2.6 of the WHATWG HTML standard) |
| EventStream.TornStream | internal/daemon/client.go:294-350 | wherever the connection breaks, a prefix of whole events was handed on and the cursor is their last ID |
| EventStreamLaws.PrintedExactly | internal/api/api.go:1689-1697 | the text of a printed event |
| EventStreamLaws.AnyEventIsRead | internal/daemon/client.go:294-350 | any lines, with comments, unknown fields, data on several lines, either line end: the event handed on has the last kind, the last ID and all data; lines with neither kind nor data hand on nothing and leave their ID to the next event |
| BrokerQueues.LosesExactlyBeyondSixteen | internal/broker/broker.go:84-102 | a connection loses an event exactly if more than 16 had to wait at some moment; otherwise it has everything in order |
| Broker.DeviceChannel.Publish | internal/broker/broker.go:71-103 | the history is always the last at most 64 published events; an event is queued for exactly the connections with room, which are counted, and dropped by the others |
| Broker.DeviceChannel.Replay | internal/broker/broker.go:105-121 | gives exactly the events published after the first of the last 64 that carries the ID, or refuses when none does |
| Broker.ReplayIsExact | internal/broker/broker.go:105-121 | replaying from the bounded history is replaying from everything, after the first of the last 64 events with the ID, and is refused exactly when none has it |
| Broker.ReplayCoversExactly | internal/broker/broker.go:105-121 | for an agent that stopped at a place: a replay is given exactly if the place is in the history or its ID occurs there again, and has all later events exactly in the first case |
| Broker.UniqueIdsAreCovered | internal/broker/broker.go:105-121 | with unique IDs a replay never leaves out an event |
| Broker.RepublishedIdSkips | internal/api/api.go:1759-1793 | 66 events of which one repeats the first ID: the replay skips ten events |
| Broker.NumberedIdsAreUnique | internal/broker/broker.go:78-81 | a channel to which only events without an ID were published has unique IDs |
| Broker.DeviceChannel.Connect | internal/api/api.go:1682-1688 | the connection is opened before the replay is taken, whatever is published in between |
| Broker.QueueContinuesReplay | internal/api/api.go:1682-1706 | if the connection dropped nothing, the replay and what came through its queue since are all events after a place with the known ID, in order and without a gap; it is the place where the agent stopped or an earlier one exactly if that place was in the history |
| Broker.ReconnectLosesNothing | internal/api/api.go:1682-1706 | the agent hands on everything written to it, and once the queue is empty its cursor is the newest event; nothing after the place where it stopped is missing exactly if that place was in the history |
| Prefixes.Intersect | internal/prefixstate/prefix.go:118-150 | the loops compute the specified candidates |
| Prefixes.CandidatesExactly | internal/prefixstate/prefix.go:118-150 | candidates are the reported addresses inside an active prefix, each once, in increasing order |
| Prefixes.SelectAddress | internal/prefixstate/prefix.go:154-171 | keeps the applied address while it is a candidate, otherwise takes the smallest |
| Prefixes.NormalizePrefixes | internal/prefixstate/prefix.go:56-96 | one entry for each usable prefix, sorted, with the lifetimes of its first use |
| Prefixes.NormalizedIsUnique | internal/prefixstate/prefix.go:56-96 | a report has one normalized list only |
| DdnsLaws.NormalizedListsExactly | internal/prefixstate/prefix.go:31-96 | a prefix with its lifetimes is listed exactly if the report has it with these lifetimes, not over, and nowhere before |
| Prefixes.NormalizingAgainChangesNothing | internal/prefixstate/prefix.go:56-96 | normalizing is idempotent at the same time |
| Ddns.Service.GetActivePrefixes | internal/prefixstate/service.go:274-301 | the active prefixes are those that are alive, and the report is stale exactly beyond its limit |
| Ddns.Service.ReconcileDevice | internal/ddns/service.go:118-273 | one reconcile, with failing publisher calls and failing writes of the state, is the specified step on the state and the provider's record |
| DdnsLaws.CandidateIsInSight | internal/prefixstate/service.go:274-301 | an address is a candidate exactly if the device reported it and a prefix of its network with unexpired lifetimes contains it |
| DdnsLaws.AskedExactly | internal/ddns/service.go:164-272 | an address is written exactly if the report is not too old, it is the applied one in sight or else the smallest, and it is not already synced; the record is deleted exactly if nothing is in sight and the grace period of an applied address is over |
| DdnsLaws.TooOldKeepsEverything | internal/ddns/service.go:150-163 | a report that is too old changes neither the state nor the record |
| DdnsLaws.RecordFollows | internal/ddns/service.go:164-212 | with a working provider the record becomes the chosen address |
| DdnsLaws.WriteIsStored | internal/ddns/service.go:181-212 | what is stored after a write, by its result and which of the two saves worked |
| DdnsLaws.WaitingIsStored | internal/ddns/service.go:213-245 | nothing in sight starts the grace period of an applied address |
| Ddns.DeletedOnlyAfterGrace | internal/ddns/service.go:222-272 | the record is deleted only if a reconcile a grace period earlier found no candidate and none since stored one |
| Ddns.FindingEndsGraceExactly | internal/ddns/service.go:164-212 | a candidate found during a grace period ends it exactly if one of the writes reaches the store |
| Ddns.DeletedOnlyWithoutCandidates | internal/ddns/service.go:222-272 | if every reconcile that found a candidate stored something, none since has found one |
| Ddns.UnstoredFindingIsForgotten | internal/ddns/service.go:164-212 | a run in which the record is deleted although its address was found within the grace period |
| Ddns.GraceMeansAppliedAndUnsynced | internal/ddns/service.go:164-272 | a running grace period means an applied address and a status that is not synced; synced means applied as desired |
| Ddns.AppliedIsRecordExactly | internal/ddns/service.go:181-212 | one reconcile keeps the applied address equal to the record exactly unless the write noting a taken change fails |
| Ddns.UnnotedChangeIsLost | internal/ddns/service.go:181-212 | an address that the provider took and the store did not note |
| Ddns.AppliedIsAlwaysRecord | internal/ddns/service.go:164-272 | over every run without such a loss the applied address is the provider's record |
| Ddns.WritesAreSticky | internal/ddns/service.go:165-168 | a different address is written only when the applied one is no longer reported inside an active prefix |
| Ddns.RecordHolds | internal/ddns/service.go:165-180 | while the applied address stays a candidate no run changes the record |
| Ddns.SuccessIsStable | internal/ddns/service.go:170-179 | after a successful reconcile an equal view of the network asks for nothing more |
| ServerNetwork.Coordinator.Reconcile | internal/servernetwork/coordinator.go:193-387 | a pass, with any of its state writes failing, leaves the specified state, watch and written addresses |
| ServerNetwork.Coordinator.SyncRecord | internal/servernetwork/coordinator.go:276-385 | a record goes through its stages, each saved in turn |
| ServerNetwork.Coordinator.UpdateConfig | internal/servernetwork/coordinator.go:455-542 | a change made for another version, or one that cannot be saved, changes nothing; otherwise the version goes up by one and a pass follows |
| ServerNetwork.StagesAreGood | internal/servernetwork/coordinator.go:276-385 | every saved stage is consistent and confirms an address only if the provider just returned it |
| ServerNetwork.EverySavedStateFollows | internal/servernetwork/coordinator.go:231-385 | no saved state loses a record or a confirmed address, whatever fails |
| ServerNetwork.RecordsAreGood | internal/servernetwork/coordinator.go:231-385 | in every run, with failing writes and crashes between them: versions in order, synced means fully confirmed, failed means a retry is due |
| ServerNetwork.OtherAddressOnlyAfterDebounce | internal/servernetwork/coordinator.go:221-273 | where the first configured record with a confirmed address, whatever its status, has another one, an address is written only after the same detection was steady for the debounce time |
| ServerNetworkLaws.WrittenExactly | internal/servernetwork/coordinator.go:193-387 | a pass writes an address to a record exactly if it is the detected one, it is not held back by a confirmed other one, and the configured record wants it |
| ServerNetworkLaws.DebounceOverWrites | internal/servernetwork/coordinator.go:252-273 | once the debounce is over the pass does write, unless the record waits out a failed write of that address |
| ServerNetworkLaws.HeldBackWaits | internal/servernetwork/coordinator.go:230-273 | before that it starts the watch and marks the records pending, and the same detection again changes nothing |
| ServerNetworkLaws.WriteEnds | internal/servernetwork/coordinator.go:276-385 | a write that was taken and returned confirms the address, any other one is due for a retry and keeps what was confirmed |
| Revisions.RevisionStore.Allocate | cmd/homeagent-agent/revision_store.go:84-109 | the next revision, the quarantine of a corrupt file, and every outcome of the write |
| Revisions.RevisionStore.AdvanceAfterConflict | cmd/homeagent-agent/revision_store.go:111-132 | one above both the local and the reported revision, or a refusal that changes nothing |
| RevisionLaws.AllocationExactly | cmd/homeagent-agent/revision_store.go:84-109 | which revision is handed out, when none is, and what the file holds after each outcome of the write |
| RevisionLaws.AdvanceExactly | cmd/homeagent-agent/revision_store.go:111-132 | when a revision is handed out after a conflict, and that it is the next after the larger of the two |
| Revisions.RevisionsIncrease | cmd/homeagent-agent/revision_store.go:84-132 | revisions handed out between quarantines strictly increase across crashes and failing writes |
| Revisions.SnapshotStore.UpdateReportedAddresses | internal/devicestate/service.go:237-306 | a device's report is accepted, refused with the current revision, or not saved, as specified |
| Revisions.SnapshotStore.UpdateRouterPrefixes | internal/prefixstate/service.go:205-271 | the same for a router's prefixes |
| RevisionLaws.AnswerExactly | internal/devicestate/service.go:255-306 | when a report is a conflict, accepted or not saved, and when it counts as a change |
| RevisionLaws.StoredExactly | internal/devicestate/service.go:255-306 | what is stored after it, with the waiting mark and the time of sight |
| RevisionLaws.NewestIsStored | internal/devicestate/service.go:237-306 | whatever is late, repeated, reordered or not saved: stored is the first report of the largest revision that could be saved |
| Revisions.AcceptedInRevisionOrder | internal/devicestate/service.go:269-303 | accepted revisions never go back and each is accepted with one compared content only |
| Revisions.IgnoredPartsMayDiffer | internal/prefixstate/prefix.go:99-115 | one revision is accepted with two contents that differ in what the comparison ignores |
| Revisions.StoredRevisionNeverDecreases | internal/prefixstate/service.go:237-270 | the stored revision never decreases through reports |
| Revisions.AcceptedInAllocationOrder | cmd/homeagent-agent/revision_store.go:84-132 | whatever is delayed or repeated, the server takes one counter's reports in the order their revisions were handed out |
| Revisions.HonestConflictPassesExactly | cmd/homeagent-agent/main.go:767-783 | a server's own conflict passes the agent's guard unless revisions are exhausted |
| Revisions.ConflictAtTheLimitIsRefused | cmd/homeagent-agent/main.go:767-783 | at the largest revision the guard refuses the server's conflict |
| Revisions.RetryIsAhead | cmd/homeagent-agent/main.go:784-797 | the revision sent again is above the server's and the refused one, so only a report that has raised the server's revision since can have it refused |
| Revisions.HonestServerEndsWell | cmd/homeagent-agent/main.go:691-814 | with one honest server, no other report and a working counter a sending ends well after at most two requests and its content is stored |
| Revisions.SendNetworkReport | cmd/homeagent-agent/main.go:691-814 | at most one recovery, two revisions, bounded requests; it ends well exactly when the last request did |
| Sessions.CallKeepsInv | internal/auth/session.go:238-639 | every call keeps each session with an active user at its version, and the username index a bijection |
| Sessions.StoredIsAcceptedExactly | internal/auth/session.go:298-332 | a stored session is accepted exactly until it expires, with its user's current role |
| Sessions.CallKeepsAnOwner | internal/auth/session.go:522-639 | no call takes away the last active owner |
| Sessions.VersionsNeverGoBack | internal/auth/session.go:358-639 | no call lowers a user's session version |
| Sessions.NewPasswordDecides | internal/auth/session.go:393-465 | after a password change exactly the new password lets the active user in, and nobody else's access changed |
| Sessions.ActivityDecides | internal/auth/session.go:557-612 | enabling and disabling decide only whether that user gets in |
| SessionRuns.AcceptedExactlyWhileLive | internal/auth/session.go:298-332 | in every run with failing writes and restarts a token is accepted exactly if some call issued it, it has not expired, and every entry that ended its session since was undone by a restart before anything was written |
| SessionRuns.WrittenEndingStands | internal/auth/session.go:335-377 | a revocation that was written stands for good |
| SessionRuns.UnwrittenRevocationIsUndone | internal/auth/session.go:358-377 | a revocation whose save fails is undone by a restart |
| SessionRuns.MapsAgree | internal/auth/session.go:63-105 | in every run, restarts included, the maps agree |
| SessionRuns.IndexIsRebuilt | internal/auth/session.go:93-99 | the index built at start is the one that was kept in memory |
| SessionRuns.OwnerIsLostExactly | internal/auth/session.go:720-741 | the active owners vanish exactly when a restart comes before anything was written since the event that made the first of them |
| SessionRuns.UnwrittenOwnerIsLost | internal/auth/session.go:137-187 | a first owner whose save fails is gone after a restart |
| SessionRuns.OwnerStays | internal/auth/session.go:522-639 | an active owner that is in the file stays for good, whatever writes fail and however often the process restarts |
| AccountRuns.EffectExactly | internal/auth/session.go:137-639 | when each call takes effect and what it reports |
| AccountRuns.AccountIsItsHistory | internal/auth/session.go:63-639 | in every run with failing writes and restarts a user has a role, a password, a name or access exactly if an entry that was not undone gave it and all that took it away since were undone |
| AccountRuns.SignInExactly | internal/auth/session.go:208-229 | so a name and a password let somebody in exactly if one enabled user has both |
| AccountRuns.NewUserGetsIn | internal/auth/session.go:468-519 | a user that was made has the given role and gets in with exactly the given name and password; nobody else is touched |
| AccountRuns.NewRoleStands | internal/auth/session.go:522-554 | a changed role is the one asked for, and the user's sessions end |
| AccountRuns.NewSessionIsStamped | internal/auth/session.go:238-282 | a new session is the user's, in its role, and lasts seven days or one; expired ones go and no other changes |
| AccountRuns.AcceptedIsRefreshed | internal/auth/session.go:298-332 | an accepted session is seen now, takes its user's current role and keeps its end |
| AccountRuns.ChangedUserIsStamped | internal/auth/session.go:358-612 | which changes number the user and which end its sessions |
| SessionService.SessionManager.InitAdminBootstrap | internal/auth/session.go:137-187 | the first owner is set only when there is no user |
| SessionService.SessionManager.AuthenticateUser | internal/auth/session.go:208-229 | lets in exactly the active user whose name and password are given |
| SessionService.SessionManager.CreateUserSession | internal/auth/session.go:238-282 | a session is added for an active user, and taken back when the save fails |
| SessionService.SessionManager.ValidateSession | internal/auth/session.go:298-332 | accepts, refreshes or drops a session as specified |
| SessionService.SessionManager.RevokeUserSessions | internal/auth/session.go:358-377 | the version goes up and all sessions of the user go, saved or not |
| SessionService.SessionManager.UpdateUserPassword | internal/auth/session.go:393-431 | a checked password change revokes the user's sessions |
| SessionService.SessionManager.CreateUser | internal/auth/session.go:468-519 | a user with a new name is added to both maps, and taken back when the save fails |
| SessionService.SessionManager.UpdateUserRole | internal/auth/session.go:522-554 | the last active owner cannot be demoted; a change revokes the user's sessions |
| SessionService.SessionManager.DisableUser | internal/auth/session.go:557-589 | the last active owner cannot be disabled; a change revokes the user's sessions |
| SessionService.SessionManager.DeleteUser | internal/auth/session.go:614-639 | the user leaves all three maps, unless it is the last active owner |
| SessionService.SessionManager.CountActiveOwners | internal/auth/session.go:701-709 | counts exactly the active owners |
| SessionService.SessionManager.CleanExpired | internal/auth/session.go:711-718 | removes exactly the expired sessions |
| Registry.NextKeepsInv | internal/registry/registry.go:307-534 | every operation, failed writes included, keeps the user index the transpose of the device index and no grant of a removed device |
| Registry.RunKeepsInv | internal/registry/registry.go:307-534 | so over every run |
| RegistryRuns.SeesExactlyByHistory | internal/registry/registry.go:43-76 | in every run with failing writes and restarts a user sees a device exactly if an entry made the user owner or shared it, none later took that away, and undone entries do not count |
| RegistryRuns.WrittenRevocationStands | internal/registry/registry.go:413-429 | a sharing that a written entry ended stays ended until the device is shared again |
| RegistryRuns.UnwrittenRevocationIsUndone | internal/registry/registry.go:413-429 | a revocation whose write fails is undone by a restart |
| Registry.TransferMovesAccess | internal/registry/registry.go:474-521 | a transfer gives the device to the new owner, takes it from the old one unless retained, and touches nobody else |
| Registry.RevokeTakesOneAccess | internal/registry/registry.go:413-429 | a revocation takes exactly one user's access |
| Registry.FailedDeleteLosesShares | internal/registry/registry.go:307-330 | after a deletion whose write fails only the owner still sees the device |
| Registry.FailedDeleteIsHarmlessExactly | internal/registry/registry.go:307-330 | such a deletion changes nothing exactly if the device was shared with nobody but its owner |
| Registry.FailedDeleteExample | internal/registry/registry.go:307-330 | a device that stays while the user it was shared with no longer sees it |
| Registry.DeleteByOwnerKeepsOthers | internal/registry/registry.go:333-359 | exactly the owner's devices disappear, for everyone |
| RegistryService.DeviceRegistry.Save | internal/registry/registry.go:105-204 | the owner of a saved device, and the rollback of a failed write |
| RegistryService.DeviceRegistry.SetDefaultOwner | internal/registry/registry.go:78-96 | devices without owner get the default one |
| RegistryService.DeviceRegistry.Delete | internal/registry/registry.go:307-330 | the device and its grants go from both indexes; only the device comes back when the write fails |
| RegistryService.DeviceRegistry.DeleteDevicesByOwner | internal/registry/registry.go:333-359 | the loop removes exactly the owner's devices and their grants |
| RegistryService.DeviceRegistry.SetGrant | internal/registry/registry.go:362-410 | an existing grant is changed in place, in both indexes at once; a new one is added to both |
| RegistryService.DeviceRegistry.RevokeGrant | internal/registry/registry.go:413-429 | the grant goes from both indexes |
| RegistryService.DeviceRegistry.TransferOwnership | internal/registry/registry.go:474-521 | owner and grants change together as specified |
| RegistryService.DeviceRegistry.IsDeviceVisible | internal/registry/registry.go:547-559 | tells whether the device exists and whether the user owns it or was granted it |
| RegistryService.DeviceRegistry.HasDevicePermission | internal/registry/registry.go:574-605 | reading is allowed exactly to those who see the device; the level decides the rest |
| RegistryService.DeviceRegistry.FilterDevicesForUser | internal/registry/registry.go:276-293 | lists exactly the devices the user sees, each once, newest first |
| SshBlock.RemoveUndoesUpdate | internal/githubsync/config.go:69-96 | removing the block gives back the trimmed text and one line end |
| SshBlock.LastUpdateWins | internal/githubsync/config.go:20-66 | only the last path written counts |
| SshBlock.IdempotentExactly | internal/githubsync/config.go:20-66 | the exact condition under which updating twice changes nothing |
| SshBlock.BeginAloneIsNotIdempotent | internal/githubsync/config.go:20-66 | a begin marker alone: the second update is not the first |
| SshBlock.TextAfterBlockIsNotIdempotent | internal/githubsync/config.go:20-66 | text after the block: every update adds a line end |
| SshBlock.WrittenIsReadBack | internal/githubsync/config.go:39-66 | no marker straddles the joins: what was written around a block is found again |
| SshBlockText.BlockIsItsLines | internal/githubsync/config.go:20-38 | the block is these seven lines, the fifth of which names the key file |
| SshBlockText.BlockIsReplaced | internal/githubsync/config.go:39-66 | the block takes the place of the old one, and the text before and after it is kept up to the line ends next to it |
| SshBlockText.BlockIsAppended | internal/githubsync/config.go:39-66 | without a block it follows the trimmed text |
| SshBlockText.BlockIsRemoved | internal/githubsync/config.go:69-96 | removing keeps the text before and after, one empty line apart |

## Left out

- FileRelayService.Service.CleanupExpired: one atomic call, while the source releases its lock between deletions.
- HealthService.CollectFindings: calls the rules of the specification, so it checks the loop and not the rules; liveness, disk and memory have their own theorems.
- HealthService.Assess: display order and evidence of reasons are not kept, and the comparison of versions is a verdict given as input.
- HealthService.HealthMonitor.EvaluateDevice: a failing snapshot or event write ends the source's call early; the case of lost events is `Alerting.LostEventsBreakMirror`.
- HealthService.AlertService.HandleSingleEvent: failing alert writes and the cancelling of retries are not modelled.
- EventStream.StreamReader.ReadStream: cancellation, and a cursor write that fails, which the source only logs.
- ServerNetwork.Coordinator.UpdateConfig: the records are given in normalized form, the conflict checker and the watcher are not modelled, and no pass comes between the change and its own pass.
- Revisions.SendNetworkReport: the targets are a number that stays the same during one sending, and building the payload never fails.
- RegistryService.DeviceRegistry.Save: validation and the merging of device facts other than owner and times are not modelled.
- ServerNetwork.RecordsAreGood: three identical loops of the source that mark all records are one method here; the retry delay is any delay, so nothing depends on the back-off formula.
- Ddns.Service.ReconcileDevice: one step relative to device reports, as the source saves back a copy it read before the network call; a failed publisher call has no effect on the record.
- HTTP handlers, authentication middleware, command line, web UI, installers and self-upgrade: plumbing without invariants of its own.
- JSON encoding, temporary files, file modes and directory syncs: persistence is an atomic replacement.
- Hashing, random tokens, file and user name syntax, password hashing: identifiers and one `valid` flag per call; a blank token, which the source ignores, is a token that was never issued.
- File relay: the quota is the same after a restart, listing and settings are not modelled, and the streaming of one chunk is one step.
- Health: disk and memory ratios are compared exactly (cross-multiplied) instead of in floating point.
- Alerting: evaluation times of a device strictly increase, and the writes of alerts and snapshots succeed; the retry worker's read, delivery and save are one step; retry delays and jitter are nondeterministic.
- Commands: an identifier determines its kind, every event but pings and snapshots has one, and the ledger has a path; the cancelling of queued commands and their timeouts are not modelled, so a queued command may always be published again; parsing the payloads and the side effects themselves are not modelled.
- Broker: `Broadcast` and closing of clients; pings, which have no ID, are not printed; a restart of the server empties the history in `CommandDelivery`, where its restarting the numbering of other events is not modelled.
- DNS: how a prefix or address is parsed and which address classes are refused are inputs (`None` for a refused one); the source's default limits are applied by the caller.
- Sessions: `UpsertUser`, migration of old files, and session versions beyond 64 bits.
- Registry: the levels of grants over restarts, `ReplaceDevicesFromControlPlane`, `AttachControlPlane`, ill-formed initial files, and device facts other than owner and times.
- SSH block: the hosts.yml functions and the file wrappers.
- `internal/command`, `internal/domainbinding`, `internal/acl`, `internal/qualitygate`, `internal/githubrelease`: their state is not visible here or would only add easy members.
