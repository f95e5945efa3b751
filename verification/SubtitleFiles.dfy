/**
 What the API shows and serves of a finished subtitle job, over every run of the worker
 protocol: a completed job has its result, so it is linked and served until it expires.
 */
module SubtitleFiles {
  import opened Common
  import opened WorkerProtocol
  import A = AssetIndex

  /** The result key the API may stream; an empty key counts as none. */
  function StoredResult(row: SubtitleRow): Option<string> {
    if row.resultKey.Some? && row.resultKey.value != "" then row.resultKey else None
  }

  /** `getFile` up to the storage read. */
  function GetFile(db: Db, id: RowId, now: int): Result<string, A.FileError> {
    if id !in db.subtitles then Err(A.NotFound)
    else
      var row := db.subtitles[id];
      if !row.status.SCompleted? || StoredResult(row).None? then Err(A.NotFound)
      else if row.expiresAt <= now then Err(A.Gone)
      else Ok(StoredResult(row).value)
  }

  datatype DisplayStatus = Shown(status: SubtitleStatus) | ShownExpired

  function Display(row: SubtitleRow, now: int): DisplayStatus {
    if row.status.SCompleted? && (StoredResult(row).None? || row.expiresAt <= now) then ShownExpired else Shown(row.status)
  }

  /** Whether `toResponse` carries a download URL. */
  predicate OffersLink(row: SubtitleRow, now: int) {
    Display(row, now) == Shown(SCompleted) && StoredResult(row).Some?
  }

  /** A completed row has its result. */
  ghost predicate ResultsStored(db: Db) {
    forall id :: id in db.subtitles && db.subtitles[id].status.SCompleted? ==> StoredResult(db.subtitles[id]).Some?
  }

  /** The worker names every result. */
  predicate NamesResults(e: Event) {
    e.Work? ==> e.resultKey != ""
  }

  lemma WorkKeepsResults(db: Db, w: WorkerId, ok: bool, expiresAt: int, resultKey: string)
    requires ResultsStored(db) && w in db.workers && resultKey != ""
    ensures ResultsStored(WorkStep(db, w, ok, expiresAt, resultKey))
  {
    match Owned(db.workers[w])
    case Some(Download(id)) =>
      assert WorkStep(db, w, ok, expiresAt, resultKey).subtitles == db.subtitles;
    case _ =>
  }

  lemma StepKeepsResults(timeout: nat, db: Db, e: Event)
    requires ResultsStored(db) && NamesResults(e)
    ensures ResultsStored(Step(timeout, db, e))
  {
    if e.Work? && e.w in db.workers {
      WorkKeepsResults(db, e.w, e.ok, e.expiresAt, e.resultKey);
    }
  }

  lemma {:induction false} AfterKeepsResults(timeout: nat, db: Db, es: seq<Event>)
    requires ResultsStored(db) && forall i :: 0 <= i < |es| ==> NamesResults(es[i])
    ensures ResultsStored(After(timeout, db, es))
    decreases |es|
  {
    if es != [] {
      StepKeepsResults(timeout, db, es[0]);
      AfterKeepsResults(timeout, Step(timeout, db, es[0]), es[1..]);
    }
  }

  /** In every reachable state a link is offered exactly when the file is served, and that is exactly when the job is completed and unexpired. */
  lemma LinkIffServed(timeout: nat, start: Db, es: seq<Event>, id: RowId, now: int)
    requires start.subtitles == map[] && forall i :: 0 <= i < |es| ==> NamesResults(es[i])
    requires id in After(timeout, start, es).subtitles
    ensures var db := After(timeout, start, es);
            var row := db.subtitles[id];
            && (OffersLink(row, now) <==> GetFile(db, id, now).Ok?)
            && (OffersLink(row, now) <==> row.status.SCompleted? && row.expiresAt > now)
            && (GetFile(db, id, now).Ok? ==> row.resultKey == Some(GetFile(db, id, now).value))
            && (GetFile(db, id, now) == Err(A.Gone) <==> row.status.SCompleted? && row.expiresAt <= now)
            && Display(row, now) == (if row.status.SCompleted? && row.expiresAt <= now then ShownExpired else Shown(row.status))
    ensures forall unknown :: unknown !in After(timeout, start, es).subtitles ==>
              GetFile(After(timeout, start, es), unknown, now) == Err(A.NotFound)
  {
    AfterKeepsResults(timeout, start, es);
  }

  /** What `getFile` answers for any database, an empty result key counting as none. */
  lemma FileAnswers(db: Db, id: RowId, now: int)
    ensures var answer := GetFile(db, id, now);
            var stored := id in db.subtitles && db.subtitles[id].status.SCompleted? && db.subtitles[id].resultKey.Some?
                          && db.subtitles[id].resultKey.value != "";
            && (answer == Err(A.NotFound) <==> !stored)
            && (answer == Err(A.Gone) <==> stored && db.subtitles[id].expiresAt <= now)
            && (answer.Ok? <==> stored && db.subtitles[id].expiresAt > now)
            && (id in db.subtitles ==> (OffersLink(db.subtitles[id], now) <==> answer.Ok?))
            && (id in db.subtitles ==>
                  (Display(db.subtitles[id], now) == ShownExpired <==> db.subtitles[id].status.SCompleted? && answer.Err?))
  {
  }
}
