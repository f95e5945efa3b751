# Verified model of MyTube Extract

MyTube Extract downloads media for a browser extension and a web page. An API process keeps
an in-memory queue of downloads, each with a temporary directory; a separate worker process
claims extraction and subtitle jobs from a database; browsers upload videos in parallel parts;
an hourly sweep removes what has expired. This project models those parts in Dafny and proves
what each keeps over every run. `dafny verify dfyconfig.toml` checks all of it.

Most components appear twice. A file of values and functions gives the state, one step per
stretch of code between two awaits (or per database statement), and the theorems about
arbitrary sequences of steps. A file of classes has the fields and methods of the original and
proves that every method moves the state exactly as those steps say.

| component | state machine and theorems | objects |
|---|---|---|
| download queue over capped downloads | `MediaLifecycle`, `MediaQueue`, `MediaQueueInvariants`, `MediaQueueTheorems`, `MediaQueueRecords` | `MediaDownloadJobService`, `MediaServer` |
| database-backed worker | `WorkerProtocol`, `WorkerMutex`, `WorkerExclusion`, `WorkerRecovery`, `WorkerFairness`, `WorkerStages`, `AssetIndex`, `SubtitleFiles` | `Worker`, `DownloadsService` |
| multipart upload | `MultipartUpload`, `SubtitleUploads`, `UploadOutcomes`, `UploadPipeline` | `PartUploader`, `SubtitlesService` |
| expiry sweep | `AssetCleanup`, `CleanupReplay` | `AssetCleanupService` |
| yt-dlp runner and output tails | `YoutubeDlRunner`, `StreamTails` | in the same files |
| file names and headers | `FileNames`, `Rfc5987`, `AttachmentHeader` | (pure) |
| extension popup | `PopupModel` | `PopupDownloadModel` |

Foreign systems (storage, the database, child processes, the clock, HTTP) answer through
parameters: every call may succeed, fail, or, where that matters, take effect and then report
an error.

## What turned out to depend on a condition

- `download` throws after taking its slot when the temporary directory cannot be created or the name
  holds a lone surrogate (`media-download.service.ts:64-69` lies before the `try`). The slot is lost
  for good, so as many such calls as the limit stop the service (`ThrowingSetupsStopService`). Under
  such a name the directory is orphaned as well: `NoOrphanIff` gives the exact condition,
  `IllFormedNameLeaks` a run. The service methods accept such names. The audio and video routes decode
  theirs from a query string, which gives well-formed text, so with these routes alone it is a failing
  directory creation that costs slots (`FailedMkdirsStopService`).
- One direct download is enough for the inner limiter to refuse a job the queue had room for
  (`DirectCallStarvesQueue`); `DrainRefusesIff` says of every job a drain launches whether it is
  refused. With the queue as only caller, and names and directories that work, none ever is
  (`InnerGuardNeverFires`).
- A file in mid-delivery loses its directory exactly when a sweep finds its record past the time to
  live: the sweep does not look at deliveries (`DeliveryCutOffIff`).
- A restore that takes no row a live worker is processing keeps mutual exclusion; after any other
  restore a continuation reaches two live owners of one row, even if it takes no live row again
  (`WorkerExclusion.RestoreExclusiveIff`). For one worker restores are always safe. Two workers can
  fail for every timeout (`TwoOwnersReached`). Then a subtitle row can also be left active without a
  claim time (`LostLeaseBlocks`), which blocks both tables until the row is deleted
  (`BlockedUntilDeleted`), by a sweep exactly if it has expired (`SweepLiftsBlockIff`).
- A database insert that commits and then reports an error leaves a row whose object the
  compensation deletes (`RowLeftIff`, `RowWithoutObject`); a storage call that completes and then
  reports an error, or a failed deletion, leaves an object (`ObjectLeftIff`, `ObjectWithoutRow`).
- The sweep deletes rows by id and does not look again: it removes an unexpired row exactly when the
  last thing done to the row between the snapshot and its delete call, during earlier rows' turns or
  its own, was a renewal (`LostRenewalIff`, `RenewalCanBeLost`). A row that stays, unexpired, loses its
  object exactly when the last thing done to the object was a delete call of the sweep
  (`SurvivorLosesObjectIff`, `SurvivorCanLoseObject`).
- The character tail is a suffix of the output exactly for a positive limit (`SuffixIffPositive`):
  `slice(-0)` keeps everything. The line tail depends on how the output is cut into chunks;
  `CutKeepsLinesIff` says which cuts are harmless.
- The title sanitizer cuts at 120 code units. Exactly when the cut splits a surrogate pair,
  building the header of the finished file throws (`HeaderFailsIffCutsPair`, `LongTitleWithEmoji`),
  and for a subtitle, of the uploaded name without its extension (`SubtitleHeaderFailsIffCutsPair`).
- Two submits of the popup are in flight at some point exactly when somebody returned to the form
  while a submit ran and pressed the enabled button later with that submit still running
  (`OverlapIff`); the options may have been edited in between (`OverlapAfterEdit`). After that, the
  end of one submit lets a third start over the other (`EndUnderOtherOverlapsIff`).

## Model

| member | source | states |
|---|---|---|
| MediaQueueInvariants.StepKeeps | apps/api/src/media/media-download-job.service.ts:58-257 | every turn keeps all invariants: the queue is the queued records, runs and running records correspond, no wakeup is lost, every unremoved directory has an owner unless its setup threw |
| MediaQueueTheorems.RemovedAtMostOnce | apps/api/src/media/media-download-job.service.ts:97-184 | over every run, cancel, sweep, delivery and settlement together remove no directory twice |
| MediaQueueTheorems.NoOrphanIff | apps/api/src/media/media-download.service.ts:64-124 | in every reachable state, every unremoved directory is held by a flight or a record in the map if and only if no ill-formed name reached a directory that could be created |
| MediaLifecycle.SetupOfIff | apps/api/src/media/media-download.service.ts:64-69 | the path throws exactly for an ill-formed name in a created directory |
| MediaQueueTheorems.WellFormedNamesNeverLeak | apps/api/src/media/media-download.service.ts:64-124 | a service asked only for well-formed names leaks no directory in any run |
| MediaQueueTheorems.IllFormedNameLeaks | apps/api/src/media/media-download.service.ts:69 | one call of `download` under any other name leaks one, whatever the limits |
| MediaQueueTheorems.SweepReclaimsEverything | apps/api/src/media/media-download-job.service.ts:165-184 | with nothing in flight, after a sweep past the time to live a directory has been removed, exactly once, if and only if its path did not throw |
| MediaQueueTheorems.LimitsHold | apps/api/src/media/media-download-job.service.ts:205-222 | `runningCount` equals the in-flight runs, `activeDownloads` the pending downloads plus lost slots, and neither passes its limit |
| MediaQueueTheorems.LaunchRefusedIff | apps/api/src/media/media-download.service.ts:54-64 | in any state, the drain loop's included, the inner 429 guard refuses the job launched next exactly when pending downloads and lost slots fill the limit |
| MediaQueueTheorems.DrainRefusesIff | apps/api/src/media/media-download-job.service.ts:196-224 | over every run, of the jobs one drain launches the guard refuses exactly those for which pending downloads, lost slots and the drain's earlier launches fill the limit |
| MediaQueueTheorems.InnerGuardNeverFires | apps/api/src/media/media-download.service.ts:54-64 | when only the queue downloads, under well-formed names into directories that can be created, no flight is ever refused by the inner guard |
| MediaQueueTheorems.DirectCallStarvesQueue | apps/api/src/media/media-download.service.ts:54-64 | a concrete run in which one direct request makes the guard refuse a queued job |
| MediaQueueTheorems.LostSlotsStay | apps/api/src/media/media-download.service.ts:64-69 | a slot lost to a throwing setup is never given back by any turn |
| MediaQueueTheorems.ExhaustedSlotsAreFinal | apps/api/src/media/media-download.service.ts:64-69 | once throwing setups used up the limit, no download is ever in progress again |
| MediaQueueTheorems.ThrowingSetupsStopService | apps/api/src/media/media-download.service.ts:64-69 | for every limit: as many downloads as the limit whose directory cannot be created or whose name cannot be encoded, and no download is in progress after any continuation |
| MediaQueueTheorems.FailedMkdirsStopService | apps/api/src/media/media-download.service.ts:64-67 | in particular, directory creation that fails that often, even if it works later |
| MediaQueueTheorems.BadNamesStopService | apps/api/src/media/media-download.service.ts:64-69 | in particular, that many downloads under an ill-formed name |
| MediaQueueInvariants.HeadIsStartable | apps/api/src/media/media-download-job.service.ts:205-218 | the record at the head of the queue exists and is queued, so the guard in `drain` is never taken |
| MediaQueueTheorems.StartsFollowCreation | apps/api/src/media/media-download-job.service.ts:84-85 | over every run the started jobs followed by the queue are the created jobs in order, without repetition, minus those canceled while queued |
| MediaQueueTheorems.DroppedOnlyByCancel | apps/api/src/media/media-download-job.service.ts:283-290 | a turn drops a queued job exactly if it is the cancel of that job |
| MediaQueueTheorems.QuiescentQueueIsEmpty | apps/api/src/media/media-download-job.service.ts:187-257 | a reachable state with no internal turn left has an empty queue |
| MediaQueueTheorems.InternalStepLowers | apps/api/src/media/media-download-job.service.ts:187-257 | every internal turn lowers 4·queue + 2·running + downloading + scheduled |
| MediaQueueTheorems.ExternalStepNeverRaises | apps/api/src/media/media-download-job.service.ts:97-184 | no request except a new job raises it |
| MediaQueueTheorems.InternalTurnsBounded | apps/api/src/media/media-download-job.service.ts:187-257 | without new jobs, the number of internal turns in any run is at most the measure at its start |
| MediaQueueTheorems.StepEdges | apps/api/src/media/media-download-job.service.ts:97-257 | every turn moves every record's status along an allowed edge and forgets no record |
| MediaQueueTheorems.FinalStatusesStay | apps/api/src/media/media-download-job.service.ts:97-257 | failed and expired are final over every run |
| MediaQueueTheorems.ConsumeSucceedsIff | apps/api/src/media/media-download-job.service.ts:122-162 | consuming succeeds exactly for a known, ready, unconsumed job, and its directory is still on disk |
| MediaQueueTheorems.ConsumedAtMostOnce | apps/api/src/media/media-download-job.service.ts:122-162 | no job is handed out twice in any run |
| MediaQueueTheorems.DeliveryCutOffIff | apps/api/src/media/media-download-job.service.ts:145-184 | over every run, a turn other than its own end takes the directory from a delivery exactly if it is a sweep and `now - updatedAt` of the record has reached the time to live |
| MediaQueueTheorems.CanceledRunsAreAborted | apps/api/src/media/media-download-job.service.ts:97-119 | an in-flight run's record is running, or canceled with its abort signal fired |
| MediaQueueRecords.SweepKeepsIff | apps/api/src/media/media-download-job.service.ts:165-184 | a sweep keeps a job exactly if it is queued, running, or younger than the time to live |
| MediaQueueRecords.SweepTouchesOnly | apps/api/src/media/media-download-job.service.ts:165-184 | a sweep changes no directory of a kept job, removes a directory at most once, and its count is the number of jobs dropped |
| MediaQueueRecords.UpdatedAtIsLastTouch | apps/api/src/media/media-download-job.service.ts:259-267 | over every run `updatedAt` is the time of the last turn that created the job, changed its status, or canceled it again |
| MediaQueueRecords.CreateIff | apps/api/src/media/media-download-job.service.ts:58-89 | a job is accepted exactly below the queue limit, 20 by default, as a fresh queued record at the end of the queue |
| MediaQueueRecords.DefaultLimits | apps/api/src/media/media-download-job.service.ts:58-65 | over every run at most the configured number of jobs waits and runs, 20 and 1 by default |
| MediaQueueRecords.ConsumeAnswers | apps/api/src/media/media-download-job.service.ts:122-162 | for every status, which error consuming gives, or the directory it hands out |
| MediaQueueRecords.CancelDoes | apps/api/src/media/media-download-job.service.ts:97-119 | a cancel leaves unknown, failed and expired jobs alone; any other is canceled, leaves the queue, and has its unconsumed artifact removed or its signal fired |
| MediaQueueRecords.RunEnds | apps/api/src/media/media-download-job.service.ts:227-257 | a run ends failed, ready with its own directory, or canceled with the directory removed, as its outcome and the cancel say |
| MediaQueueRecords.DeliveryEnds | apps/api/src/media/media-download-job.service.ts:145-160 | the end of a delivery removes its directory and expires the job, once |
| MediaQueueRecords.DownloaderEnds | apps/api/src/media/media-download.service.ts:88-145 | a download that ends well keeps its directory, one that fails has removed it, and either gives its slot back |
| MediaDownloadJobs.MediaDownloadService.Download | apps/api/src/media/media-download.service.ts:50-88 | the synchronous part of `download`: guard, slot, directory, with every way the setup can throw |
| MediaDownloadJobs.MediaDownloadService.Continue | apps/api/src/media/media-download.service.ts:88-145 | the continuation: cleanup on failure, the artifact on success, the slot given back in both |
| MediaDownloadJobs.MediaDownloadJobService.Create | apps/api/src/media/media-download-job.service.ts:58-89 | accepts exactly below the queue limit and then appends a queued record and schedules a drain |
| MediaDownloadJobs.MediaDownloadJobService.Cancel | apps/api/src/media/media-download-job.service.ts:97-119 | releases the queue entry, the artifact or the running download, then marks the job canceled |
| MediaDownloadJobs.MediaDownloadJobService.ConsumeReadyArtifact | apps/api/src/media/media-download-job.service.ts:122-162 | the error for every status, or a callback that cleans and expires |
| MediaDownloadJobs.MediaDownloadJobService.CleanupExpiredJobs | apps/api/src/media/media-download-job.service.ts:165-184 | the loop over the map removes and cleans exactly the finished records past their time to live, and counts them |
| MediaDownloadJobs.MediaDownloadJobService.DrainTask | apps/api/src/media/media-download-job.service.ts:187-224 | the drain microtask starts jobs from the head while below the limit |
| MediaDownloadJobs.MediaDownloadJobService.ContinueRun | apps/api/src/media/media-download-job.service.ts:227-257 | a run's continuation: failed, ready, or cleaned if canceled meanwhile; the slot and the wakeup in `finally` |
| MediaServer.RunMediaServer | apps/api/src/media/media-download-job.service.ts:58-257 | the objects after any run of requests and continuations: both limits hold, and no orphan exactly for well-formed names |
| WorkerMutex.StepKeeps | apps/worker/src/main.ts:150-328 | every statement except a restore of a live row keeps: one active row in both tables, at most one live owner, every active row stamped |
| WorkerMutex.RestoreKeepsIff | apps/worker/src/main.ts:194-232 | a restore keeps the whole invariant (one active row, unique live owners on active rows, claim stamps) if and only if it spares the rows of live workers |
| WorkerExclusion.RestoreExclusiveIff | apps/worker/src/main.ts:194-328 | a restore spares the rows of live workers if and only if in every continuation with safe restores at most one row is active and no row has two live owners |
| WorkerExclusion.SafeRunsAreExclusive | apps/worker/src/main.ts:150-328 | any number of workers: a run whose restores take no live row keeps that exclusion |
| WorkerExclusion.TwoOwnersReached | apps/worker/src/main.ts:194-328 | for every timeout, two workers can both be processing the same subtitle row |
| WorkerMutex.SingleWorkerExclusion | apps/worker/src/main.ts:150-328 | one worker, any requests, sweeps, crashes and restarts: at most one row active, at most one owner |
| WorkerMutex.LeasedWorkersExclusion | apps/worker/src/main.ts:150-328 | the same for any number of workers while every live owner is within the timeout |
| WorkerFairness.ClaimHoldsForTimeout | apps/worker/src/main.ts:194-328 | until the timeout has passed since a claim, nothing other processes do takes the row from its owner |
| WorkerFairness.LoopTakesBackIff | apps/worker/src/main.ts:194-232 | a loop of another worker that begins at a moment takes the row back exactly if the timeout has passed since its claim |
| WorkerFairness.ConflictsGiveUpAfterThree | apps/worker/src/main.ts:235-328 | conflicts in a row leave the worker at a later attempt, after the third at the top of its loop, and change no row |
| WorkerStages.LookStage | apps/worker/src/main.ts:334-341 | a claimed download goes on to an unexpired asset of its triple, and to the extraction exactly if there is none |
| WorkerStages.ReuseStages | apps/worker/src/main.ts:334-360 | a reusable asset with its object completes the job; one without is deleted with every reference to it, and the job goes on |
| WorkerStages.UpsertStage | apps/worker/src/main.ts:405-432 | the upsert writes the triple's row with its key and expiry and touches no other triple |
| WorkerStages.FailStages | apps/worker/src/main.ts:400-436 | a failing job ends failed, as does one whose asset vanished, and every error inside a job leads there |
| WorkerStages.SubtitleStages | apps/worker/src/main.ts:439-504 | each stage of a subtitle job leads to the next or to the failed status, and writes just that |
| WorkerRecovery.NextJobIsOldest | apps/worker/src/worker.logic.ts:285-317 | choosing between the two heads yields the (createdAt, id) minimum of both queues, and none exactly if both are empty |
| WorkerRecovery.ClaimOrderIsSortedMerge | apps/worker/src/worker.logic.ts:285-317 | repeated claims produce the sorted merge of both queues: ordered, complete, without repetition |
| WorkerRecovery.ClaimTakesHead | apps/worker/src/main.ts:235-328 | a claim takes exactly the head of that order and leaves the rest of it unchanged |
| WorkerFairness.FirstInFirstClaimed | apps/worker/src/main.ts:263-310 | over every run, of two waiting rows of either table the one inserted first comes first in the order, and a claim never takes the other |
| WorkerFairness.InsertsAreOrdered | apps/api/src/downloads/downloads.service.ts:67-80 | over every run, an insert puts its row behind every row there is, by creation time and number |
| WorkerFairness.InsertWrites | apps/api/src/downloads/downloads.service.ts:67-80 | what an insert of either kind writes, the time of now included, and that it changes no other row |
| WorkerRecovery.RestoreRequeues | apps/worker/src/main.ts:194-232 | a restore past the timeout re-queues every active row with its creation time, and nothing else changes its state |
| WorkerRecovery.CrashNeverBlocks | apps/worker/src/main.ts:150-312 | once every active row is stale, one loop of a worker claims a row no younger than any that waits or was stuck |
| WorkerRecovery.SingleWorkerRecovers | apps/worker/src/main.ts:150-312 | the single worker does so after any run, crash and restart, because every active row is stamped |
| WorkerRecovery.LeasedWorkersRecover | apps/worker/src/main.ts:150-312 | after any leased run of any number of workers, any worker at the top of its loop recovers a row whose owner died once the row's timeout has passed |
| WorkerRecovery.LostLeaseBlocks | apps/worker/src/main.ts:463-466 | for every timeout and later expiry, two workers can reach an unexpired active subtitle row without claim time or owner |
| WorkerRecovery.BlockedUntilDeleted | apps/worker/src/main.ts:237-262 | from there, after any run, no job can be processed if and only if that row has not been deleted |
| WorkerRecovery.SweepLiftsBlockIff | apps/api/src/downloads/asset-cleanup.service.ts:44-62 | a sweep lifts the block exactly if the row has expired by then |
| WorkerLoop.Worker.RestoreStuckJobs | apps/worker/src/main.ts:194-232 | both updates with one cutoff, as two statements |
| WorkerLoop.Worker.ClaimNextQueuedJob | apps/worker/src/main.ts:235-328 | at most three attempts, only serialization conflicts retried; the claim, nothing, or the error of the first other answer |
| WorkerLoop.FirstAnswerIs | apps/worker/src/main.ts:235-328 | the answer that decides is the one all earlier ones were conflicts to |
| WorkerLoop.Worker.ProcessJob | apps/worker/src/main.ts:331-436 | a run of the protocol that ends with the job completed on an asset of its own triple exactly if a reusable asset has its object or the extraction and upload succeed, else failed |
| WorkerLoop.Worker.ProcessSubtitleJob | apps/worker/src/main.ts:439-504 | a run of the protocol that ends with the job completed under its result key exactly if every stage succeeded, else failed |
| WorkerLoop.Worker.Turn | apps/worker/src/main.ts:150-174 | restore, claim the oldest, process: the claimed job is neither waiting nor active afterwards |
| WorkerLoop.Database.FindReusable | apps/worker/src/main.ts:334-341 | an unexpired asset of the triple, if there is one |
| WorkerLoop.Database.DeleteAsset | packages/db/prisma/schema.prisma:43 | deleting an asset nulls every reference to it |
| AssetIndex.ReferencesAgree | packages/db/prisma/schema.prisma:43 | in every reachable state a job's reference names a row of its own triple stored under that triple's key |
| AssetIndex.KeysAreDistinct | apps/worker/src/worker.logic.ts:111-120 | object keys of slash-free video ids are equal exactly for equal triples |
| AssetIndex.FileAnswers | apps/api/src/downloads/downloads.service.ts:111-151 | over every run: the file exactly for a completed job whose asset has not expired, 410 exactly once it has, 404 for everything else |
| AssetIndex.DisplayShows | apps/api/src/downloads/downloads.service.ts:154-183 | a link exactly for such a file; the status, or expired for a completed job without one |
| AssetIndex.LinkIffServed | apps/api/src/downloads/downloads.service.ts:111-183 | a link is shown exactly when `getFile` would answer neither 404 nor 410, and the served object is the job's own |
| SubtitleFiles.LinkIffServed | apps/api/src/subtitles/subtitles.service.ts:324-354 | in every reachable state a subtitle link is shown exactly when the file is served, that is exactly when the job is completed and unexpired, and what is served is the stored result |
| SubtitleFiles.FileAnswers | apps/api/src/subtitles/subtitles.service.ts:324-354 | for any database which of 404, 410 and the file is answered, an empty result key counting as none |
| DownloadsApi.DownloadsService.Create | apps/api/src/downloads/downloads.service.ts:28-84 | completed on the verified asset, or queued after dropping an asset whose object is gone; a storage error writes nothing |
| DownloadsApi.CreateIsRun | apps/api/src/downloads/downloads.service.ts:28-84 | an uninterrupted create is a run of the interleaved system, whatever else is in progress |
| MultipartUpload.StepKeeps | apps/web/src/api/mytube-extract.api.ts:388-415 | whichever uploader resumes and however its PUT ended, claims, parts, store and byte count stay consistent |
| MultipartUpload.ClaimedExactlyOnce | apps/web/src/api/mytube-extract.api.ts:389-393 | an index below `nextPartIndex` is pushed, or held by exactly one uploader, never both |
| MultipartUpload.SlicesMeet | apps/web/src/api/mytube-extract.api.ts:397-402 | no slice is empty or over the part size, each ends where the next begins, the last at the end of the file |
| MultipartUpload.ResolvedIffAllPushed | apps/web/src/api/mytube-extract.api.ts:417-419 | all uploaders have returned exactly when every part is pushed |
| MultipartUpload.AtMostThreeInFlight | apps/web/src/api/mytube-extract.api.ts:385-419 | over every run at most three PUTs are in flight, and no more than there are parts |
| MultipartUpload.FailureIsFinal | apps/web/src/api/mytube-extract.api.ts:403-419 | a PUT that fails, or shows no tag, keeps the upload from ever resolving |
| MultipartUpload.ProgressReachesSizeAtEnd | apps/web/src/api/mytube-extract.api.ts:408-414 | reported bytes never pass the file size and reach it exactly at the end |
| MultipartUpload.SortIsPermutation | apps/web/src/api/mytube-extract.api.ts:421-423 | sorting the parts loses none and makes none up |
| MultipartUpload.ReportedPartsAreComplete | apps/web/src/api/mytube-extract.api.ts:379-423 | under every interleaving the sorted report is 1..n, each part stored under its tag with its slice |
| MultipartUpload.AssembledIsFile | apps/web/src/api/mytube-extract.api.ts:379-423 | the object the store assembles from the report is the file, byte for byte |
| MultipartUpload.AssembleIff | apps/api/src/subtitles/subtitles.service.ts:246-250 | the store accepts a list exactly if it holds every listed part under its tag and the numbers ascend |
| PartUploads.PartUploader.Resume | apps/web/src/api/mytube-extract.api.ts:388-415 | one uploader's stretch between awaits, on the shared variables |
| PartUploads.UploadSubtitleFileParts | apps/web/src/api/mytube-extract.api.ts:364-424 | for any sequence of PUT answers: a result exactly if all uploaders returned, and then a complete report that assembles to the file |
| SubtitlesApi.NormalizeUploadParts | apps/api/src/subtitles/subtitles.service.ts:477-505 | accepts exactly non-empty lists of valid, distinct parts, sorted; otherwise the error of the first bad part in sorted order |
| SubtitleUploads.NormalizedIff | apps/api/src/subtitles/subtitles.service.ts:477-505 | the same if and only if for the specification, with the result an ascending permutation |
| UploadPipeline.SessionPlanIsIssued | apps/api/src/subtitles/subtitles.service.ts:183-223 | an opened session's parts cover the declared size with at most 10 000 parts |
| UploadPipeline.UploadIsCopy | apps/api/src/subtitles/subtitles.service.ts:159-294 | from any API state: open a session, upload under any interleaving with other sessions' requests; a resolved upload's report creates the job exactly if the token is unexpired, the calls answer and the size fits, and then the object is the file |
| UploadPipeline.AfterKeeps | apps/web/src/api/mytube-extract.api.ts:388-415 | the session stays open and the store's parts stay right, even where the store keeps a part whose PUT the browser saw fail |
| SubtitleUploads.ReachedInv | apps/api/src/subtitles/subtitles.service.ts:83-306 | over every run every row has its object of the recorded size and every object its row, up to the named error cases |
| SubtitleUploads.AllOrCompensated | apps/api/src/subtitles/subtitles.service.ts:259-294 | after a completed upload: a row with an object of the token's size, or no object, or a logged failed deletion |
| SubtitleUploads.RowLeftIff | apps/api/src/subtitles/subtitles.service.ts:265-294 | a failed completion leaves a row exactly when the insert committed and then threw |
| SubtitleUploads.ObjectLeftIff | apps/api/src/subtitles/subtitles.service.ts:251-294 | a failed completion leaves the object exactly when the store hid its success or the deletion failed |
| SubtitleUploads.RowWithoutObject | apps/api/src/subtitles/subtitles.service.ts:266-294 | a concrete run that ends with a row whose object is gone |
| SubtitleUploads.ObjectWithoutRow | apps/api/src/subtitles/subtitles.service.ts:246-251 | a concrete run that ends with an object no row names |
| SubtitleUploads.StoredNameFailsIffCutsPair | apps/api/src/subtitles/subtitles.service.ts:192-196 | every job of any run has a well-formed file name, and its finished subtitle cannot be served exactly if the cut splits a pair of it |
| SubtitleUploads.SecondCompletionRefused | apps/api/src/subtitles/subtitles.service.ts:236-256 | completing a completed session again is refused and changes nothing |
| UploadOutcomes.CompletedSessionStaysCompleted | apps/api/src/subtitles/subtitles.service.ts:236-256 | the same after any run in between, however the first completion ended |
| UploadOutcomes.AbortedIff | apps/api/src/subtitles/subtitles.service.ts:297-307 | an abort is acknowledged exactly if the token fits and the store answers; then that session is gone and nothing else has changed |
| UploadOutcomes.AbortedSessionStaysAborted | apps/api/src/subtitles/subtitles.service.ts:297-307 | after an abort and any run, completing the session is refused and changes nothing |
| UploadOutcomes.CreatedIff | apps/api/src/subtitles/subtitles.service.ts:236-294 | a job is created exactly if the token is signed, unexpired and for this upload, the parts are valid and make the promised object, and every call answers |
| UploadOutcomes.CompletionRefusals | apps/api/src/subtitles/subtitles.service.ts:236-294 | for every reason, exactly when a completion is refused with it |
| UploadOutcomes.CompletionFrame | apps/api/src/subtitles/subtitles.service.ts:236-294 | a completion touches its own session, object, row and log entry only; refused before the store call, nothing |
| UploadOutcomes.PartErrors | apps/api/src/subtitles/subtitles.service.ts:477-505 | which error a bad part list gives: that of its first bad part in ascending order |
| UploadOutcomes.SessionIff | apps/api/src/subtitles/subtitles.service.ts:159-233 | a session is issued exactly for an admissible request whose calls succeed, with the request's own data, a lifetime of 30 minutes and enough parts |
| UploadOutcomes.OpenRefusals | apps/api/src/subtitles/subtitles.service.ts:159-233 | for every reason, exactly when opening is refused with it |
| UploadOutcomes.LegacyCreatedIff | apps/api/src/subtitles/subtitles.service.ts:83-130 | the same for the older path |
| SubtitleUploads.ReachedOneRowPerKey | apps/api/src/subtitles/subtitles.service.ts:83-306 | over every run, errors and repeated completions included, no two rows name the same object |
| SubtitleUploads.LegacyAllOrCompensated | apps/api/src/subtitles/subtitles.service.ts:88-146 | the older path after its upload: the row with its object, or the object removed, or a logged failed deletion |
| SubtitleUploads.TempAlwaysAttempted | apps/api/src/subtitles/subtitles.service.ts:147-155 | the temporary file is left exactly when it was there and its removal failed, whatever happened before |
| SubtitlesApi.SubtitlesService.CreateUpload | apps/api/src/subtitles/subtitles.service.ts:159-233 | checks, part count, the header of the file name, store call, presigning, signed session, in that order with the error of each |
| SubtitlesApi.SubtitlesService.CompleteUpload | apps/api/src/subtitles/subtitles.service.ts:236-294 | token, target and part checks, completion, then insert or compensation |
| SubtitlesApi.SubtitlesService.AbortUpload | apps/api/src/subtitles/subtitles.service.ts:297-307 | the same token checks, then the session is dropped |
| SubtitlesApi.SubtitlesService.Create | apps/api/src/subtitles/subtitles.service.ts:83-156 | the older path with its `sourceUploaded` flag, compensation and temporary file |
| SubtitlesApi.RunSubtitles | apps/api/src/subtitles/subtitles.service.ts:83-307 | the objects after any run of requests and PUTs: rows and stored objects match up to the named error cases |
| AssetCleanup.NoRowGoesBeforeItsObjects | apps/api/src/downloads/asset-cleanup.service.ts:28-70 | for any failures, with no interleaved change: a removed row was expired and none of its objects is left |
| AssetCleanup.RemovedIff | apps/api/src/downloads/asset-cleanup.service.ts:28-70 | for any failures, with no interleaved change: a row is gone exactly if it was expired and all its calls took effect; otherwise it is unchanged |
| AssetCleanup.CleanSweepLeavesNoneExpired | apps/api/src/downloads/asset-cleanup.service.ts:18-73 | with no failures and no interleaved change, exactly the unexpired rows remain and no object of a removed row |
| AssetCleanup.FailedRowsComeBack | apps/api/src/downloads/asset-cleanup.service.ts:35-41 | with no interleaved change, every row that failed is in the next sweep's list |
| AssetCleanup.UnremovedRowsUntouched | apps/api/src/downloads/asset-cleanup.service.ts:28-70 | for any failures and any interleaved changes: the table entry of a row one of whose object calls failed, or whose delete call failed, ends as if the sweep had not run |
| CleanupReplay.SweepIsReplay | apps/api/src/downloads/asset-cleanup.service.ts:18-73 | the sweep equals the replay, in order, of its effective calls and the other processes' changes |
| CleanupReplay.SurvivorLosesObjectIff | apps/api/src/downloads/asset-cleanup.service.ts:28-70 | for any failures and interleaved changes: a row that stays and is left unexpired with its object by the others ends without the object exactly if the last thing done to it was the sweep's delete |
| CleanupReplay.SurvivorCanLoseObject | apps/api/src/downloads/asset-cleanup.service.ts:28-42 | a concrete renewed row that stays and whose object is gone |
| AssetCleanup.UnlistedRowsUntouched | apps/api/src/downloads/asset-cleanup.service.ts:28-70 | for any failures and interleaved changes, the table entries of rows outside the snapshot end as if the sweep had not run |
| AssetCleanup.LostRenewalIff | apps/api/src/downloads/asset-cleanup.service.ts:18-42 | for any changes between the snapshot and the delete call, in earlier rows' turns too: a removed row was unexpired at its delete call exactly if the last change to it was a renewal |
| AssetCleanup.RenewalCanBeLost | apps/api/src/downloads/asset-cleanup.service.ts:30-33 | a concrete renewed asset that is removed |
| AssetCleanupJobs.AssetCleanupService.CleanupExpiredAssets | apps/api/src/downloads/asset-cleanup.service.ts:18-73 | two snapshots and two loops with that effect, one logged failure for each row whose turn failed, returning how many rows were found |
| YoutubeDlRunner.RunMatchesHistory | packages/media-downloader/src/youtube-dl-runner.ts:57-197 | for every order of events the promise is settled by the first decisive one, with its outcome and the tails up to it |
| YoutubeDlRunner.SettledIff | packages/media-downloader/src/youtube-dl-runner.ts:78-196 | it is settled exactly when an abort, an error, an unclean close or an answered clean close has happened |
| YoutubeDlRunner.ResolvedIff | packages/media-downloader/src/youtube-dl-runner.ts:168-196 | it resolves exactly after a clean close and a non-empty output with nothing decisive before |
| YoutubeDlRunner.OutcomeIs | packages/media-downloader/src/youtube-dl-runner.ts:89-225 | for each kind of first decisive event the outcome, its tails, and that authentication is missing exactly if the error tail says so |
| YoutubeDlRunner.SettledForGood | packages/media-downloader/src/youtube-dl-runner.ts:78-86 | nothing later changes the outcome or kills the process |
| YoutubeDlRunner.KilledIffAborted | packages/media-downloader/src/youtube-dl-runner.ts:89-103 | the process is killed once if the abort decided, and otherwise never |
| YoutubeDlRunner.YoutubeDlRun.Handle | packages/media-downloader/src/youtube-dl-runner.ts:123-196 | the handlers on `settled`, the abort listener and the two tails |
| YoutubeDlRunner.RunYoutubeDl | packages/media-downloader/src/youtube-dl-runner.ts:57-197 | already aborted and failed spawns reject at once; otherwise the outcome of the first decisive event |
| StreamTails.TailIsSuffix | apps/worker/src/worker.logic.ts:31-44 | for a positive limit and any chunking the tail is the last characters of all output |
| StreamTails.SuffixIffPositive | apps/worker/src/worker.logic.ts:31-44 | that holds for all outputs if and only if the limit is positive |
| StreamTails.RechunkingKeepsTail | apps/worker/src/worker.logic.ts:31-44 | cutting the same output differently gives the same tail |
| StreamTails.SliceFromIs | apps/worker/src/worker.logic.ts:31-44 | a start below zero counts from the end, and both ends clamp |
| StreamTails.StreamTail.OnData | packages/media-downloader/src/youtube-dl-runner.ts:200-216 | push and splice keep the last twelve of all chunks' non-empty lines |
| StreamTails.CutKeepsLinesIff | packages/media-downloader/src/youtube-dl-runner.ts:204-207 | cutting a chunk in two keeps its lines exactly at an end, at a line end, or before a line end that is not a cut CR LF |
| FileNames.SanitizedIsClean | apps/api/src/downloads/downloads.service.ts:237-248 | at most 120 units, none forbidden, single spaces only, no dot or space at an end |
| FileNames.UnchangedIffClean | apps/api/src/downloads/downloads.service.ts:237-248 | the sanitizer leaves a title alone exactly when it already is that |
| FileNames.SanitizeIdempotent | apps/api/src/subtitles/subtitles.util.ts:203-212 | sanitizing twice is sanitizing once |
| FileNames.LettersKept | apps/api/src/downloads/downloads.service.ts:237-248 | the title's letters are kept in order, but for outer dots and what lies beyond the cut |
| FileNames.FallbackIsSafe | apps/api/src/downloads/downloads.service.ts:251-265 | for any normalization the fallback is non-empty quotable ASCII and keeps the extension |
| FileNames.FallbackKeepsSigns | apps/api/src/downloads/downloads.service.ts:251-265 | for any normalization the fallback keeps the quotable ASCII of the base in order, but for dots and spaces at its ends |
| FileNames.StandInIff | apps/api/src/downloads/downloads.service.ts:251-265 | the stand-in is used exactly if nothing of the kind is left |
| FileNames.FallbackUnchangedIff | apps/api/src/downloads/downloads.service.ts:251-265 | the base stays as normalized exactly if it is quotable, has single underscores, and is bare at its ends |
| FileNames.PlainNameUnchanged | apps/api/src/downloads/downloads.service.ts:251-265 | so a plain file name is its own fallback |
| FileNames.ExtensionFound | apps/api/src/downloads/downloads.service.ts:253-254 | the extension is found exactly where a dot and alphanumerics end the name |
| Rfc5987.EncodeFailsIffIllFormed | apps/api/src/downloads/downloads.service.ts:229-234 | the encoder throws exactly on a lone surrogate |
| Rfc5987.Utf8IsShortest | apps/api/src/downloads/downloads.service.ts:229-234 | the octets are the shortest form, with the lead octets of section 4 of RFC 3629 |
| Rfc5987.EncodeWritesUtf8 | apps/api/src/downloads/downloads.service.ts:229-234 | its two passes write the UTF-8 octets of the name, each as itself or as one escape |
| Rfc5987.EmitsValueChars | apps/api/src/downloads/downloads.service.ts:229-234 | only attr-char and `%HH` of section 3.2.1 of RFC 5987 |
| Rfc5987.EncodeRoundTrip | apps/api/src/subtitles/subtitles.util.ts:215-220 | decoding gives back every well-formed name |
| AttachmentHeader.HeaderRoundTrip | apps/api/src/downloads/downloads.service.ts:219-226 | both names can be read back from the header unchanged |
| AttachmentHeader.HeaderText | apps/api/src/downloads/downloads.service.ts:219-226 | the text of the header, as section 4.1 of RFC 6266 has it |
| AttachmentHeader.ClassesSpelledOut | apps/api/src/subtitles/subtitles.util.ts:203-237 | the character classes of the sanitizer, the fallback and the encoder, as the regular expressions spell them |
| AttachmentHeader.DownloadNameIs | apps/api/src/downloads/downloads.service.ts:199-217 | a file is named by its sanitized title, else by the last segment of its key, else by a fixed name |
| AttachmentHeader.WithoutExtensionIs | apps/api/src/subtitles/subtitles.util.ts:135-139 | the extension is cut exactly at a last dot with something after it |
| AttachmentHeader.SanitizedWellFormedIff | apps/api/src/downloads/downloads.service.ts:237-248 | a well-formed title stays well-formed exactly if the cut splits no pair |
| AttachmentHeader.HeaderFailsIffCutsPair | apps/api/src/downloads/downloads.service.ts:111-151 | serving a file fails in the header exactly if the cut of its title splits a pair |
| AttachmentHeader.LongTitleWithEmoji | apps/api/src/downloads/downloads.service.ts:237-248 | a concrete title for which it does |
| AttachmentHeader.SubtitleHeaderFailsIffCutsPair | apps/api/src/subtitles/subtitles.util.ts:135-152 | serving a subtitle fails in the header exactly if the cut of the uploaded name without its extension splits a pair |
| PopupModel.CanDownloadIff | apps/chrome-extension/src/features/popup-download/popup-download-model.ts:105-282 | under every interleaving the button is enabled exactly when the URLs are valid and nothing is downloading |
| PopupModel.ButtonRules | apps/chrome-extension/src/features/popup-download/popup-download-model.ts:105-130 | the same in terms of the URL rules |
| PopupModel.UpdateShows | apps/chrome-extension/src/features/popup-download/popup-download-model.ts:255-282 | a change sets its own option and no other, shows the form's state, and is saved unless it is the source |
| PopupModel.LoadShows | apps/chrome-extension/src/features/popup-download/popup-download-model.ts:136-157 | the stored options, or the defaults, with an empty source |
| PopupModel.TabShows | apps/chrome-extension/src/features/popup-download/popup-download-model.ts:158-185 | the tab's URL in its normal form, or a status saying there is none |
| PopupModel.CheckShows | apps/chrome-extension/src/features/popup-download/popup-download-model.ts:220-253 | an available server starts the download with the submitted options; otherwise the submit ends |
| PopupModel.AtMostOneSubmit | apps/chrome-extension/src/features/popup-download/popup-download-model.ts:202-254 | without a return to the form mid-flight, `downloading` says whether a submit is in flight, and there are never two |
| PopupModel.OverlapIff | apps/chrome-extension/src/features/popup-download/popup-download-model.ts:186-254 | over every run, two submits are ever in flight if and only if a return during a submit is followed, with it still running, by a press of the enabled button |
| PopupModel.OverlapHasCause | apps/chrome-extension/src/features/popup-download/popup-download-model.ts:186-254 | whenever a submit goes ahead over a running one, a return or another submit's end came while that one ran |
| PopupModel.OverlapAfterEdit | apps/chrome-extension/src/features/popup-download/popup-download-model.ts:186-282 | a concrete run with the options invalid at the return and two submits in flight at the end |
| PopupModel.EndUnderOtherOverlapsIff | apps/chrome-extension/src/features/popup-download/popup-download-model.ts:202-254 | of two running submits, either end of one lets a third start over the other exactly if the options shown are valid |
| PopupModel.RequestsUsePressedOptions | apps/chrome-extension/src/features/popup-download/popup-download-model.ts:202-228 | a started download uses the valid options shown when the button was pressed, whatever changed since |
| PopupModel.ReturnMidFlightOverlapsIff | apps/chrome-extension/src/features/popup-download/popup-download-model.ts:186-194 | with one submit in flight, a return followed at once by a press starts a second exactly if the options shown are valid |
| PopupModel.EndedSubmitRestoresButton | apps/chrome-extension/src/features/popup-download/popup-download-model.ts:229-252 | either end of the only submit keeps the current options, shows its status, and enables the button exactly if they are valid |
| PopupDownload.PopupDownloadModel.SubmitDownload | apps/chrome-extension/src/features/popup-download/popup-download-model.ts:202-222 | a submit up to its first await |
| PopupDownload.PopupDownloadModel.UpdateOption | apps/chrome-extension/src/features/popup-download/popup-download-model.ts:255-270 | an option change up to its await |
| PopupDownload.PopupDownloadModel.Resume | apps/chrome-extension/src/features/popup-download/popup-download-model.ts:136-282 | every continuation, on the snapshot of its time |
| PopupDownload.RunPopup | apps/chrome-extension/src/features/popup-download/popup-download-model.ts:90-284 | the object after any run: the button is enabled exactly for valid URLs while nothing is downloading |

## Left out

- Status texts, progress numbers, error messages, logging and redaction: tables and formatting.
- Real time: clocks are integers, and a method reads the clock once where the source may read it a little later again.
- URL parsing, option defaults, MIME tables, environment parsing and the preflight size check: single-branch logic.
- Token signing: a token is accepted exactly if the server signed its payload and it has not expired; encoding and HMAC are not part of this model.
- Part numbers that are not integers: the request schema rejects them before the modelled code.
- The store's own minimum part size, and presigned URL expiry: not part of this model.
- NFKD normalization: any function on strings.
- The worker's audio size check, heartbeat, sleep and shutdown; its two extraction attempts count as one call that succeeds or fails.
- A database error inside the worker's `try` blocks is a protocol step of its own (`StatementFails`) without effect; a status update that commits and then throws is not modelled. The `Process` methods follow the paths without an error.
- The order of UUIDs: the database's and the worker's comparison of ids are taken to be the same total order.
- Removal of a directory that throws: removal is counted when the cleanup closure runs.
- The guard on a missing id after `queue.shift()`: the loop condition excludes it.
- The popup's listeners and the status it shows while a submit is in flight beyond the last write.
- Response streaming, HTTP delivery, and what a client does with an interrupted download.
- WorkerLoop.Worker.ProcessJob: states the uninterrupted run; interleavings are the subject of the protocol theorems.
- YoutubeDlRunner.RunMatchesHistory: a signal that aborts while `execute` itself is running is not modelled.
