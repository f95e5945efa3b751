/**
 The database-backed worker protocol as a state machine: the two job tables,
 the asset table, the object store, a clock, and any number of worker
 processes, each a program counter over the statements of the worker's main
 loop. Every step is one database statement, one transaction or one storage
 call, so a sequence of steps is an arbitrary interleaving of workers, API
 requests, sweeps, crashes and restarts.

 Row ids are natural numbers in place of UUIDs: their order stands for the one
 total order that the database's `order by id` and the worker's
 `localeCompare` are assumed to share.
 */
module WorkerProtocol {
  import opened Common

  type RowId = nat
  type AssetId = nat
  type WorkerId = nat

  datatype MediaType = Audio | Video

  /** What an asset is an extraction of; unique in the asset table. */
  datatype Triple = Triple(videoId: string, kind: MediaType, quality: string)

  datatype DownloadStatus = DQueued | Processing | DCompleted | DFailed

  datatype SubtitleStatus = SQueued | Extracting | Transcribing | SCompleted | SFailed

  datatype DownloadRow = DownloadRow(
    createdAt: int, status: DownloadStatus, startedAt: Option<int>, assetId: Option<AssetId>, triple: Triple)

  datatype SubtitleRow = SubtitleRow(
    createdAt: int, status: SubtitleStatus, startedAt: Option<int>, sourceKey: string, resultKey: Option<string>,
    expiresAt: int)

  datatype Asset = Asset(triple: Triple, objectKey: string, expiresAt: int)

  /** A worker's program counter: which statement of its loop comes next, with the locals it holds. */
  datatype Phase =
    | Top
    | RestoreDownloads(cutoff: int)
    | RestoreSubtitles(cutoff: int)
    | Claim(attempt: nat)
    | Reuse(id: RowId)
    | CheckReuse(id: RowId, asset: AssetId)
    | DropReuse(id: RowId, asset: AssetId)
    | Extract(id: RowId)
    | Upsert(id: RowId)
    | Complete(id: RowId, asset: AssetId)
    | Fail(id: RowId)
    | Source(id: RowId)
    | ExtractAudio(id: RowId)
    | Transcribe(id: RowId)
    | Finish(id: RowId)
    | FailSubtitle(id: RowId)

  datatype Db = Db(
    downloads: map<RowId, DownloadRow>,
    subtitles: map<RowId, SubtitleRow>,
    assets: map<AssetId, Asset>,
    objects: set<string>,
    workers: map<WorkerId, Phase>,
    now: int,
    nextRow: RowId,      // fresh UUIDs
    nextAsset: AssetId)

  datatype RowRef = Download(id: RowId) | Subtitle(id: RowId)

  predicate Exists(db: Db, r: RowRef) {
    match r case Download(id) => id in db.downloads case Subtitle(id) => id in db.subtitles
  }

  predicate Active(db: Db, r: RowRef) {
    match r
    case Download(id) => id in db.downloads && db.downloads[id].status.Processing?
    case Subtitle(id) =>
      id in db.subtitles && (db.subtitles[id].status.Extracting? || db.subtitles[id].status.Transcribing?)
  }

  predicate Waiting(db: Db, r: RowRef) {
    match r
    case Download(id) => id in db.downloads && db.downloads[id].status.DQueued?
    case Subtitle(id) => id in db.subtitles && db.subtitles[id].status.SQueued?
  }

  function StartedAt(db: Db, r: RowRef): Option<int>
    requires Exists(db, r)
  {
    match r case Download(id) => db.downloads[id].startedAt case Subtitle(id) => db.subtitles[id].startedAt
  }

  function CreatedAt(db: Db, r: RowRef): int
    requires Exists(db, r)
  {
    match r case Download(id) => db.downloads[id].createdAt case Subtitle(id) => db.subtitles[id].createdAt
  }

  /** The row a worker in this phase is processing. */
  function Owned(p: Phase): Option<RowRef> {
    match p
    case Reuse(id) => Some(Download(id))
    case CheckReuse(id, _) => Some(Download(id))
    case DropReuse(id, _) => Some(Download(id))
    case Extract(id) => Some(Download(id))
    case Upsert(id) => Some(Download(id))
    case Complete(id, _) => Some(Download(id))
    case Fail(id) => Some(Download(id))
    case Source(id) => Some(Subtitle(id))
    case ExtractAudio(id) => Some(Subtitle(id))
    case Transcribe(id) => Some(Subtitle(id))
    case Finish(id) => Some(Subtitle(id))
    case FailSubtitle(id) => Some(Subtitle(id))
    case _ => None
  }

  predicate Owns(db: Db, w: WorkerId, r: RowRef) {
    w in db.workers && Owned(db.workers[w]) == Some(r)
  }

  function Goto(db: Db, w: WorkerId, p: Phase): Db {
    db.(workers := db.workers[w := p])
  }

  // ---- restore ----

  predicate Stale(startedAt: Option<int>, cutoff: int) {
    startedAt.Some? && startedAt.value < cutoff
  }

  function RestoredDownload(row: DownloadRow, cutoff: int): DownloadRow {
    if row.status.Processing? && Stale(row.startedAt, cutoff)
    then row.(status := DQueued, startedAt := None) else row
  }

  function RestoredSubtitle(row: SubtitleRow, cutoff: int): SubtitleRow {
    if (row.status.Extracting? || row.status.Transcribing?) && Stale(row.startedAt, cutoff)
    then row.(status := SQueued, startedAt := None) else row
  }

  /** The first `updateMany` of `restoreStuckJobs`. */
  function RestoreDownloadTable(db: Db, cutoff: int): Db {
    db.(downloads := map id | id in db.downloads :: RestoredDownload(db.downloads[id], cutoff))
  }

  /** The second `updateMany`. */
  function RestoreSubtitleTable(db: Db, cutoff: int): Db {
    db.(subtitles := map id | id in db.subtitles :: RestoredSubtitle(db.subtitles[id], cutoff))
  }

  // ---- claim ----

  datatype Candidate = Candidate(createdAt: int, id: RowId)

  /** `order by createdAt, id`. */
  predicate Before(a: Candidate, b: Candidate) {
    a.createdAt < b.createdAt || (a.createdAt == b.createdAt && a.id <= b.id)
  }

  function QueuedDownloads(db: Db): set<Candidate> {
    set id | id in db.downloads && db.downloads[id].status.DQueued? :: Candidate(db.downloads[id].createdAt, id)
  }

  function QueuedSubtitles(db: Db): set<Candidate> {
    set id | id in db.subtitles && db.subtitles[id].status.SQueued? :: Candidate(db.subtitles[id].createdAt, id)
  }

  predicate IsOldest(c: Candidate, s: set<Candidate>) {
    c in s && forall x :: x in s ==> Before(c, x)
  }

  lemma {:induction false} OldestExists(s: set<Candidate>)
    requires s != {}
    ensures exists c :: IsOldest(c, s)
  {
    var x :| x in s;
    var rest := s - {x};
    if rest == {} {
      assert s == {x};
      assert IsOldest(x, s);
    } else {
      OldestExists(rest);
      var c :| IsOldest(c, rest);
      assert s == rest + {x};
      if Before(c, x) { assert IsOldest(c, s); } else { assert IsOldest(x, s); }
    }
  }

  /** `findFirst` with that order: null on an empty table, else the least candidate. */
  ghost function FindFirst(s: set<Candidate>): (c: Option<Candidate>)
    ensures c.None? <==> s == {}
    ensures c.Some? ==> IsOldest(c.value, s)
  {
    if s == {} then None
    else
      OldestExists(s);
      var c :| IsOldest(c, s);
      Some(c)
  }

  /** `selectNextQueuedWorkerJob`. */
  function SelectNext(download: Option<Candidate>, subtitle: Option<Candidate>): Option<RowRef> {
    if download.None? && subtitle.None? then None
    else if download.None? then Some(Subtitle(subtitle.value.id))
    else if subtitle.None? then Some(Download(download.value.id))
    else
      var downloadFirst :=
        || download.value.createdAt < subtitle.value.createdAt
        || (download.value.createdAt == subtitle.value.createdAt && download.value.id <= subtitle.value.id);
      if downloadFirst then Some(Download(download.value.id)) else Some(Subtitle(subtitle.value.id))
  }

  ghost function NextJob(db: Db): Option<RowRef> {
    SelectNext(FindFirst(QueuedDownloads(db)), FindFirst(QueuedSubtitles(db)))
  }

  predicate AnyActive(db: Db) {
    || (exists id :: id in db.downloads && Active(db, Download(id)))
    || (exists id :: id in db.subtitles && Active(db, Subtitle(id)))
  }

  function TakeDownload(db: Db, w: WorkerId, id: RowId): Db
    requires id in db.downloads
  {
    Goto(db.(downloads := db.downloads[id := db.downloads[id].(status := Processing, startedAt := Some(db.now))]),
         w, Reuse(id))
  }

  function TakeSubtitle(db: Db, w: WorkerId, id: RowId): Db
    requires id in db.subtitles
  {
    Goto(db.(subtitles := db.subtitles[id := db.subtitles[id].(status := Extracting, startedAt := Some(db.now))]),
         w, Source(id))
  }

  /** The committed serializable transaction of `claimNextQueuedJob`. */
  ghost function ClaimStep(db: Db, w: WorkerId): Db {
    if AnyActive(db) then Goto(db, w, Top)
    else
      match NextJob(db)
      case None => Goto(db, w, Top)
      case Some(Download(id)) => if id in db.downloads then TakeDownload(db, w, id) else db
      case Some(Subtitle(id)) => if id in db.subtitles then TakeSubtitle(db, w, id) else db
  }

  const CLAIM_ATTEMPTS: nat := 3

  /** The transaction lost a serialization conflict (P2034). */
  function ConflictStep(db: Db, w: WorkerId, attempt: nat): Db {
    Goto(db, w, if attempt + 1 < CLAIM_ATTEMPTS then Claim(attempt + 1) else Top)
  }

  // ---- processing a download job ----

  /** `findFirst` on an unexpired asset of the triple, which is unique. */
  ghost function Reusable(db: Db, t: Triple): (r: Option<AssetId>)
    ensures r.Some? ==> r.value in db.assets && db.assets[r.value].triple == t && db.assets[r.value].expiresAt > db.now
    ensures r.None? ==> forall a :: a in db.assets && db.assets[a].triple == t ==> db.assets[a].expiresAt <= db.now
  {
    if a :| a in db.assets && db.assets[a].triple == t && db.assets[a].expiresAt > db.now then Some(a) else None
  }

  ghost function ReuseStep(db: Db, w: WorkerId, id: RowId): Db
    requires id in db.downloads
  {
    match Reusable(db, db.downloads[id].triple)
    case Some(a) => Goto(db, w, CheckReuse(id, a))
    case None => Goto(db, w, Extract(id))
  }

  /** HEAD on the reusable asset's object; the row may have vanished meanwhile, its key was read before. */
  function CheckStep(db: Db, w: WorkerId, id: RowId, asset: AssetId, exists_: bool): Db {
    Goto(db, w, if exists_ then Complete(id, asset) else DropReuse(id, asset))
  }

  /** Deleting an asset row sets the reference of every job on it to null. */
  function WithoutAsset(db: Db, asset: AssetId): Db {
    db.(assets := db.assets - {asset},
        downloads := map id | id in db.downloads ::
          if db.downloads[id].assetId == Some(asset) then db.downloads[id].(assetId := None) else db.downloads[id])
  }

  function DropStep(db: Db, w: WorkerId, id: RowId, asset: AssetId): Db {
    if asset in db.assets then Goto(WithoutAsset(db, asset), w, Extract(id)) else Goto(db, w, Fail(id))
  }

  function TypeName(kind: MediaType): string {
    match kind case Audio => "audio" case Video => "video"
  }

  function Extension(kind: MediaType): string {
    match kind case Audio => "mp3" case Video => "mp4"
  }

  /** The last segment of an asset's object key. */
  function KeyTail(t: Triple): string {
    TypeName(t.kind) + "-" + t.quality + "." + Extension(t.kind)
  }

  /** `createAssetObjectKey`. */
  function AssetKey(t: Triple): string {
    "extracts/" + (t.videoId + ("/" + KeyTail(t)))
  }

  /** The upload of a finished extraction. */
  function ExtractStep(db: Db, w: WorkerId, id: RowId, ok: bool): Db
    requires id in db.downloads
  {
    if ok then Goto(db.(objects := db.objects + {AssetKey(db.downloads[id].triple)}), w, Upsert(id))
    else Goto(db, w, Fail(id))
  }

  ghost function UpsertStep(db: Db, w: WorkerId, id: RowId, expiresAt: int): Db
    requires id in db.downloads
  {
    var t := db.downloads[id].triple;
    if a :| a in db.assets && db.assets[a].triple == t then
      Goto(db.(assets := db.assets[a := db.assets[a].(expiresAt := expiresAt, objectKey := AssetKey(t))]),
           w, Complete(id, a))
    else
      Goto(db.(assets := db.assets[db.nextAsset := Asset(t, AssetKey(t), expiresAt)], nextAsset := db.nextAsset + 1),
           w, Complete(id, db.nextAsset))
  }

  /** `markCompleted`; the foreign key rejects a vanished asset and the catch block marks the job failed. */
  function CompleteStep(db: Db, w: WorkerId, id: RowId, asset: AssetId): Db
    requires id in db.downloads
  {
    if asset in db.assets then
      Goto(db.(downloads := db.downloads[id := db.downloads[id].(status := DCompleted, assetId := Some(asset))]), w, Top)
    else Goto(db, w, Fail(id))
  }

  function FailStep(db: Db, w: WorkerId, id: RowId): Db
    requires id in db.downloads
  {
    Goto(db.(downloads := db.downloads[id := db.downloads[id].(status := DFailed)]), w, Top)
  }

  // ---- processing a subtitle job; its row may have been deleted by the expiry sweep ----

  function SetSubtitleStatus(db: Db, id: RowId, status: SubtitleStatus): Db
    requires id in db.subtitles
  {
    db.(subtitles := db.subtitles[id := db.subtitles[id].(status := status)])
  }

  function AudioStep(db: Db, w: WorkerId, id: RowId, ok: bool): Db {
    if ok && id in db.subtitles then Goto(SetSubtitleStatus(db, id, Transcribing), w, Transcribe(id))
    else Goto(db, w, FailSubtitle(id))
  }

  function FinishStep(db: Db, w: WorkerId, id: RowId, resultKey: string): Db {
    if id in db.subtitles then
      var row := db.subtitles[id].(status := SCompleted, resultKey := Some(resultKey));
      Goto(db.(subtitles := db.subtitles[id := row]), w, Top)
    else Goto(db, w, FailSubtitle(id))
  }

  /** `markSubtitleFailed`; on a deleted row it throws out of the main loop and the process restarts. */
  function FailSubtitleStep(db: Db, w: WorkerId, id: RowId): Db {
    if id in db.subtitles then Goto(SetSubtitleStatus(db, id, SFailed), w, Top) else Goto(db, w, Top)
  }

  // ---- steps ----

  datatype Event =
    | BeginRestore(w: WorkerId)
    | Restore(w: WorkerId)               // either updateMany
    | Conflict(w: WorkerId)
    | TryClaim(w: WorkerId)
    | Work(w: WorkerId, ok: bool, expiresAt: int, resultKey: string)  // the next statement of the current job
    | StatementFails(w: WorkerId)        // a database error inside a job's try block
    | Crash(w: WorkerId)                 // the process dies and restarts
    | Tick(now: int)
    | InsertDownload(triple: Triple, asset: Option<AssetId>)
    | InsertSubtitle(sourceKey: string, expiresAt: int)
    | DeleteSubtitle(id: RowId)
    | DeleteAsset(id: AssetId)

  /** The next statement of the job a worker is processing. */
  ghost function WorkStep(db: Db, w: WorkerId, ok: bool, expiresAt: int, resultKey: string): Db
    requires w in db.workers
  {
    match db.workers[w]
    case Reuse(id) => if id in db.downloads then ReuseStep(db, w, id) else db
    case CheckReuse(id, a) => CheckStep(db, w, id, a, ok)
    case DropReuse(id, a) => DropStep(db, w, id, a)
    case Extract(id) => if id in db.downloads then ExtractStep(db, w, id, ok) else db
    case Upsert(id) => if id in db.downloads then UpsertStep(db, w, id, expiresAt) else db
    case Complete(id, a) => if id in db.downloads then CompleteStep(db, w, id, a) else db
    case Fail(id) => if id in db.downloads then FailStep(db, w, id) else db
    case Source(id) => Goto(db, w, if ok then ExtractAudio(id) else FailSubtitle(id))
    case ExtractAudio(id) => AudioStep(db, w, id, ok)
    case Transcribe(id) => Goto(db, w, if ok then Finish(id) else FailSubtitle(id))
    case Finish(id) => FinishStep(db, w, id, resultKey)
    case FailSubtitle(id) => FailSubtitleStep(db, w, id)
    case _ => db
  }

  /** Where a database error inside the job's try block leads: its catch block. */
  function AfterError(p: Phase): Phase {
    match Owned(p)
    case Some(Download(id)) => if p.Fail? then Top else Fail(id)
    case Some(Subtitle(id)) => if p.FailSubtitle? then Top else FailSubtitle(id)
    case None => Top
  }

  /** Inserting a job: queued, or completed when the API found a reusable asset that still exists. */
  function InsertDownloadStep(db: Db, triple: Triple, asset: Option<AssetId>): Db {
    if asset.Some? && asset.value !in db.assets then db
    else
      var status := if asset.Some? then DCompleted else DQueued;
      db.(downloads := db.downloads[db.nextRow := DownloadRow(db.now, status, None, asset, triple)],
          nextRow := db.nextRow + 1)
  }

  function InsertSubtitleStep(db: Db, sourceKey: string, expiresAt: int): Db {
    db.(subtitles := db.subtitles[db.nextRow := SubtitleRow(db.now, SQueued, None, sourceKey, None, expiresAt)],
        nextRow := db.nextRow + 1)
  }

  /** One step; an event that is not enabled leaves the database as it is. `timeout` is positive and fixed. */
  ghost function Step(timeout: nat, db: Db, e: Event): Db {
    match e
    case BeginRestore(w) =>
      if w in db.workers && db.workers[w].Top? then Goto(db, w, RestoreDownloads(db.now - timeout)) else db
    case Restore(w) =>
      if w !in db.workers then db
      else
        (match db.workers[w]
         case RestoreDownloads(cutoff) => Goto(RestoreDownloadTable(db, cutoff), w, RestoreSubtitles(cutoff))
         case RestoreSubtitles(cutoff) => Goto(RestoreSubtitleTable(db, cutoff), w, Claim(0))
         case _ => db)
    case Conflict(w) =>
      if w in db.workers && db.workers[w].Claim? then ConflictStep(db, w, db.workers[w].attempt) else db
    case TryClaim(w) => if w in db.workers && db.workers[w].Claim? then ClaimStep(db, w) else db
    case Work(w, ok, expiresAt, resultKey) => if w in db.workers then WorkStep(db, w, ok, expiresAt, resultKey) else db
    case StatementFails(w) => if w in db.workers then Goto(db, w, AfterError(db.workers[w])) else db
    case Crash(w) => if w in db.workers then Goto(db, w, Top) else db
    case Tick(now) => if now >= db.now then db.(now := now) else db
    case InsertDownload(triple, asset) => InsertDownloadStep(db, triple, asset)
    case InsertSubtitle(sourceKey, expiresAt) => InsertSubtitleStep(db, sourceKey, expiresAt)
    case DeleteSubtitle(id) => db.(subtitles := db.subtitles - {id})
    case DeleteAsset(id) => WithoutAsset(db, id)
  }

  ghost function After(timeout: nat, db: Db, es: seq<Event>): Db
    decreases |es|
  {
    if es == [] then db else After(timeout, Step(timeout, db, es[0]), es[1..])
  }
}
