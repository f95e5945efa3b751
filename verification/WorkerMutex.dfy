/**
 Mutual exclusion across both job tables, for one worker outright and for any
 number under a lease hypothesis, with the exact condition at the step that
 can break it; and recovery: a crash never blocks the queue for good.
 */
module WorkerMutex {
  import opened Common
  import opened WorkerProtocol

  /** At most one row is being processed, across both tables. */
  ghost predicate OneActive(db: Db) {
    forall r, s :: Active(db, r) && Active(db, s) ==> r == s
  }

  /** A worker's row, unless a sweep deleted it, is still marked active; and no row has two live owners. */
  ghost predicate OwnersActive(db: Db) {
    && (forall w, r :: Owns(db, w, r) && Exists(db, r) ==> Active(db, r))
    && (forall v, w, r :: Owns(db, v, r) && Owns(db, w, r) ==> v == w)
  }

  /** Every active row carries the time it was claimed, so a restore can find it. */
  ghost predicate ActiveStamped(db: Db) {
    forall r :: Active(db, r) ==> StartedAt(db, r).Some? && StartedAt(db, r).value <= db.now
  }

  /** Fresh ids are fresh, and download rows are never deleted under a worker. */
  ghost predicate IdsUsed(db: Db) {
    && (forall r :: Exists(db, r) ==> r.id < db.nextRow)
    && (forall w, r :: Owns(db, w, r) ==> r.id < db.nextRow)
    && (forall w, id :: Owns(db, w, Download(id)) ==> id in db.downloads)
  }

  function Cutoff(p: Phase): Option<int> {
    match p
    case RestoreDownloads(cutoff) => Some(cutoff)
    case RestoreSubtitles(cutoff) => Some(cutoff)
    case _ => None
  }

  ghost predicate CutoffsPast(timeout: nat, db: Db) {
    forall w :: w in db.workers && Cutoff(db.workers[w]).Some? ==> Cutoff(db.workers[w]).value <= db.now - timeout
  }

  ghost predicate MutexInv(timeout: nat, db: Db) {
    OneActive(db) && OwnersActive(db) && ActiveStamped(db) && IdsUsed(db) && CutoffsPast(timeout, db)
  }

  /** An empty database with workers at the top of their loops. */
  predicate Fresh(db: Db) {
    db.downloads == map[] && db.subtitles == map[] && db.assets == map[] && db.nextRow == 0 && db.nextAsset == 0
    && forall w :: w in db.workers ==> db.workers[w].Top?
  }

  lemma FreshInv(timeout: nat, db: Db)
    requires Fresh(db)
    ensures MutexInv(timeout, db)
  {
  }

  // ---- program counters ----

  /** Moving a worker on, without it taking on another row, breaks nothing. */
  lemma GotoKeeps(timeout: nat, db: Db, w: WorkerId, p: Phase)
    requires MutexInv(timeout, db) && w in db.workers
    requires Owned(p).Some? ==> Owned(p) == Owned(db.workers[w])
    requires Cutoff(p).Some? ==> Cutoff(p).value <= db.now - timeout
    ensures MutexInv(timeout, Goto(db, w, p))
  {
    var db' := Goto(db, w, p);
    assert forall v, r :: Owns(db', v, r) ==> Owns(db, v, r);
    assert forall r :: (Exists(db', r) <==> Exists(db, r)) && (Active(db', r) <==> Active(db, r));
    assert forall r :: Exists(db, r) ==> StartedAt(db', r) == StartedAt(db, r);
  }

  // ---- a worker lets its row go, or changes it while it holds it ----

  /** One row changes; the others, the clock, and who owns what do not. */
  ghost predicate OneRowChanged(db: Db, db': Db, r: RowRef) {
    && db'.workers == db.workers && db'.now == db.now && db'.nextRow == db.nextRow
    && Exists(db, r)
    && (forall s :: Exists(db', s) <==> Exists(db, s))
    && (forall s :: s != r ==> (Active(db', s) <==> Active(db, s)))
    && (forall s :: s != r && Exists(db, s) ==> StartedAt(db', s) == StartedAt(db, s))
  }

  /** The owner finishes with its row: afterwards it owns nothing and the row is not active. */
  lemma FinishKeeps(timeout: nat, db: Db, db1: Db, w: WorkerId, r: RowRef)
    requires MutexInv(timeout, db) && OneRowChanged(db, db1, r) && Owns(db, w, r) && !Active(db1, r)
    ensures MutexInv(timeout, Goto(db1, w, Top))
  {
    var db' := Goto(db1, w, Top);
    assert forall v, s :: Owns(db', v, s) ==> Owns(db, v, s) && s != r;
    assert forall s :: Exists(db', s) <==> Exists(db, s);
    assert Active(db, r);
    assert forall s :: Active(db', s) <==> Active(db1, s);
    assert forall s :: !Active(db', s);
  }

  /** The owner changes its row and keeps it active with its stamp. */
  lemma HoldKeeps(timeout: nat, db: Db, db1: Db, r: RowRef)
    requires MutexInv(timeout, db) && OneRowChanged(db, db1, r) && Active(db, r) && Active(db1, r)
    requires StartedAt(db1, r) == StartedAt(db, r)
    ensures MutexInv(timeout, db1)
  {
    assert forall v, s :: Owns(db1, v, s) <==> Owns(db, v, s);
    assert forall s :: Active(db1, s) <==> Active(db, s);
  }

  // ---- claim ----

  lemma ClaimedKeeps(timeout: nat, db: Db, db1: Db, w: WorkerId, r: RowRef, p: Phase)
    requires MutexInv(timeout, db) && !AnyActive(db) && OneRowChanged(db, db1, r)
    requires Active(db1, r) && StartedAt(db1, r) == Some(db.now)
    requires w in db.workers && Owned(p) == Some(r) && Cutoff(p).None?
    requires r.Download? ==> r.id in db1.downloads
    ensures MutexInv(timeout, Goto(db1, w, p))
  {
    var db' := Goto(db1, w, p);
    NoneActive(db);
    assert forall s :: Active(db', s) <==> Active(db1, s);
    assert forall s :: Active(db', s) <==> s == r;
    forall v, s | Owns(db', v, s) && v != w ensures Owns(db, v, s) && !Exists(db, s) {
      assert Owns(db, v, s);
      assert !Active(db, s);
    }
    assert forall s :: Owns(db', w, s) <==> s == r;
    assert Exists(db, r);
  }

  lemma NoneActive(db: Db)
    requires !AnyActive(db)
    ensures forall r :: !Active(db, r)
  {
    forall r ensures !Active(db, r) {
      match r case Download(id) => case Subtitle(id) =>
    }
  }

  lemma TakeDownloadKeeps(timeout: nat, db: Db, w: WorkerId, id: RowId)
    requires MutexInv(timeout, db) && !AnyActive(db) && w in db.workers && id in db.downloads
    ensures MutexInv(timeout, TakeDownload(db, w, id))
  {
    var row := db.downloads[id].(status := Processing, startedAt := Some(db.now));
    ClaimedKeeps(timeout, db, db.(downloads := db.downloads[id := row]), w, Download(id), Reuse(id));
  }

  lemma TakeSubtitleKeeps(timeout: nat, db: Db, w: WorkerId, id: RowId)
    requires MutexInv(timeout, db) && !AnyActive(db) && w in db.workers && id in db.subtitles
    ensures MutexInv(timeout, TakeSubtitle(db, w, id))
  {
    var row := db.subtitles[id].(status := Extracting, startedAt := Some(db.now));
    ClaimedKeeps(timeout, db, db.(subtitles := db.subtitles[id := row]), w, Subtitle(id), Source(id));
  }

  lemma ClaimKeeps(timeout: nat, db: Db, w: WorkerId)
    requires MutexInv(timeout, db) && w in db.workers
    ensures MutexInv(timeout, ClaimStep(db, w))
  {
    if AnyActive(db) || NextJob(db).None? {
      GotoKeeps(timeout, db, w, Top);
    } else {
      match NextJob(db).value
      case Download(id) => if id in db.downloads { TakeDownloadKeeps(timeout, db, w, id); }
      case Subtitle(id) => if id in db.subtitles { TakeSubtitleKeeps(timeout, db, w, id); }
    }
  }

  // ---- restore ----

  /** No row a live worker is processing is old enough for this worker's pending `updateMany` to take. */
  ghost predicate LiveRowsSpared(db: Db, w: WorkerId)
    requires w in db.workers
  {
    match db.workers[w]
    case RestoreDownloads(cutoff) =>
      forall v, id :: Owns(db, v, Download(id)) && id in db.downloads ==> !Stale(db.downloads[id].startedAt, cutoff)
    case RestoreSubtitles(cutoff) =>
      forall v, id :: Owns(db, v, Subtitle(id)) && id in db.subtitles ==> !Stale(db.subtitles[id].startedAt, cutoff)
    case _ => true
  }

  /** What either `updateMany` does to activity: only stale rows stop being active, nothing starts. */
  lemma RestoreShape(db: Db, cutoff: int)
    ensures forall r :: Exists(RestoreDownloadTable(db, cutoff), r) <==> Exists(db, r)
    ensures forall r :: Exists(RestoreSubtitleTable(db, cutoff), r) <==> Exists(db, r)
    ensures forall r :: Active(RestoreDownloadTable(db, cutoff), r) <==>
                        Active(db, r) && !(r.Download? && Stale(StartedAt(db, r), cutoff))
    ensures forall r :: Active(RestoreSubtitleTable(db, cutoff), r) <==>
                        Active(db, r) && !(r.Subtitle? && Stale(StartedAt(db, r), cutoff))
    ensures forall r :: Active(RestoreDownloadTable(db, cutoff), r) ==>
                        StartedAt(RestoreDownloadTable(db, cutoff), r) == StartedAt(db, r)
    ensures forall r :: Active(RestoreSubtitleTable(db, cutoff), r) ==>
                        StartedAt(RestoreSubtitleTable(db, cutoff), r) == StartedAt(db, r)
  {
  }

  /** After a table restore that spared every live row, the invariant still holds. */
  lemma RestoredKeeps(timeout: nat, db: Db, db1: Db)
    requires MutexInv(timeout, db)
    requires db1.workers == db.workers && db1.now == db.now && db1.nextRow == db.nextRow
    requires forall r :: Exists(db1, r) <==> Exists(db, r)
    requires forall r :: Active(db1, r) ==> Active(db, r) && StartedAt(db1, r) == StartedAt(db, r)
    requires forall w, r :: Owns(db, w, r) && Active(db, r) ==> Active(db1, r)
    ensures MutexInv(timeout, db1)
  {
    assert forall v, s :: Owns(db1, v, s) <==> Owns(db, v, s);
  }

  lemma RestoreTableKeeps(timeout: nat, db: Db, w: WorkerId)
    requires MutexInv(timeout, db) && w in db.workers && Cutoff(db.workers[w]).Some? && LiveRowsSpared(db, w)
    ensures MutexInv(timeout, Step(timeout, db, Restore(w)))
  {
    var cutoff := Cutoff(db.workers[w]).value;
    RestoreShape(db, cutoff);
    if db.workers[w].RestoreDownloads? {
      var db1 := RestoreDownloadTable(db, cutoff);
      RestoredKeeps(timeout, db, db1);
      GotoKeeps(timeout, db1, w, RestoreSubtitles(cutoff));
    } else {
      var db1 := RestoreSubtitleTable(db, cutoff);
      RestoredKeeps(timeout, db, db1);
      GotoKeeps(timeout, db1, w, Claim(0));
    }
  }

  /** A live owner whose row a restore takes is left holding a row that is no longer active. */
  lemma RestoreTakesLiveRow(timeout: nat, db: Db, w: WorkerId)
    requires MutexInv(timeout, db) && w in db.workers && !LiveRowsSpared(db, w)
    ensures !OwnersActive(Step(timeout, db, Restore(w)))
  {
    var cutoff := Cutoff(db.workers[w]).value;
    var db' := Step(timeout, db, Restore(w));
    RestoreShape(db, cutoff);
    if db.workers[w].RestoreDownloads? {
      var v, id :| Owns(db, v, Download(id)) && id in db.downloads && Stale(db.downloads[id].startedAt, cutoff);
      assert v != w;
      assert Owns(db', v, Download(id)) && Exists(db', Download(id)) && !Active(db', Download(id));
    } else {
      var v, id :| Owns(db, v, Subtitle(id)) && id in db.subtitles && Stale(db.subtitles[id].startedAt, cutoff);
      assert v != w;
      assert Owns(db', v, Subtitle(id)) && Exists(db', Subtitle(id)) && !Active(db', Subtitle(id));
    }
  }

  /** A restore keeps the whole invariant exactly when it spares the rows of live workers. */
  lemma RestoreKeepsIff(timeout: nat, db: Db, w: WorkerId)
    requires MutexInv(timeout, db) && w in db.workers && Cutoff(db.workers[w]).Some?
    ensures MutexInv(timeout, Step(timeout, db, Restore(w))) <==> LiveRowsSpared(db, w)
  {
    if LiveRowsSpared(db, w) {
      RestoreTableKeeps(timeout, db, w);
    } else {
      RestoreTakesLiveRow(timeout, db, w);
    }
  }

  // ---- work ----

  /** Rows of the asset table, and what jobs refer to, do not matter here. */
  lemma AssetsAside(timeout: nat, db: Db, db1: Db)
    requires MutexInv(timeout, db)
    requires db1.workers == db.workers && db1.now == db.now && db1.nextRow == db.nextRow && db1.subtitles == db.subtitles
    requires db1.downloads.Keys == db.downloads.Keys
    requires forall id :: id in db.downloads ==>
               && db1.downloads[id].status == db.downloads[id].status
               && db1.downloads[id].startedAt == db.downloads[id].startedAt
    ensures MutexInv(timeout, db1)
  {
    assert forall v, s :: Owns(db1, v, s) <==> Owns(db, v, s);
    assert forall s :: (Exists(db1, s) <==> Exists(db, s)) && (Active(db1, s) <==> Active(db, s));
    assert forall s :: Exists(db, s) ==> StartedAt(db1, s) == StartedAt(db, s);
  }

  lemma DropKeeps(timeout: nat, db: Db, w: WorkerId, id: RowId, a: AssetId)
    requires MutexInv(timeout, db) && w in db.workers && db.workers[w] == DropReuse(id, a)
    ensures MutexInv(timeout, DropStep(db, w, id, a))
  {
    AssetsAside(timeout, db, WithoutAsset(db, a));
    GotoKeeps(timeout, WithoutAsset(db, a), w, Extract(id));
    GotoKeeps(timeout, db, w, Fail(id));
  }

  lemma ExtractKeeps(timeout: nat, db: Db, w: WorkerId, id: RowId, ok: bool)
    requires MutexInv(timeout, db) && w in db.workers && db.workers[w] == Extract(id) && id in db.downloads
    ensures MutexInv(timeout, ExtractStep(db, w, id, ok))
  {
    var db1 := db.(objects := db.objects + {AssetKey(db.downloads[id].triple)});
    AssetsAside(timeout, db, db1);
    GotoKeeps(timeout, db1, w, Upsert(id));
    GotoKeeps(timeout, db, w, Fail(id));
  }

  lemma UpsertKeeps(timeout: nat, db: Db, w: WorkerId, id: RowId, expiresAt: int)
    requires MutexInv(timeout, db) && w in db.workers && db.workers[w] == Upsert(id) && id in db.downloads
    ensures MutexInv(timeout, UpsertStep(db, w, id, expiresAt))
  {
    var db' := UpsertStep(db, w, id, expiresAt);
    var db1 := db.(assets := db'.assets, nextAsset := db'.nextAsset);
    AssetsAside(timeout, db, db1);
    GotoKeeps(timeout, db1, w, db'.workers[w]);
    assert db' == Goto(db1, w, db'.workers[w]);
  }

  lemma CloseDownloadKeeps(timeout: nat, db: Db, w: WorkerId, id: RowId, row: DownloadRow)
    requires MutexInv(timeout, db) && Owns(db, w, Download(id)) && id in db.downloads && !row.status.Processing?
    ensures MutexInv(timeout, Goto(db.(downloads := db.downloads[id := row]), w, Top))
  {
    FinishKeeps(timeout, db, db.(downloads := db.downloads[id := row]), w, Download(id));
  }

  lemma DownloadWorkKeeps(timeout: nat, db: Db, w: WorkerId, ok: bool, expiresAt: int, resultKey: string, id: RowId)
    requires MutexInv(timeout, db) && w in db.workers && Owned(db.workers[w]) == Some(Download(id))
    ensures MutexInv(timeout, WorkStep(db, w, ok, expiresAt, resultKey))
  {
    assert Owns(db, w, Download(id));
    match db.workers[w]
    case Reuse(_) => GotoKeeps(timeout, db, w, ReuseStep(db, w, id).workers[w]);
    case CheckReuse(_, a) => GotoKeeps(timeout, db, w, CheckStep(db, w, id, a, ok).workers[w]);
    case DropReuse(_, a) => DropKeeps(timeout, db, w, id, a);
    case Extract(_) => ExtractKeeps(timeout, db, w, id, ok);
    case Upsert(_) => UpsertKeeps(timeout, db, w, id, expiresAt);
    case Complete(_, a) =>
      CloseDownloadKeeps(timeout, db, w, id, db.downloads[id].(status := DCompleted, assetId := Some(a)));
      GotoKeeps(timeout, db, w, Fail(id));
    case Fail(_) => CloseDownloadKeeps(timeout, db, w, id, db.downloads[id].(status := DFailed));
  }

  lemma CloseSubtitleKeeps(timeout: nat, db: Db, w: WorkerId, id: RowId, row: SubtitleRow)
    requires MutexInv(timeout, db) && Owns(db, w, Subtitle(id)) && id in db.subtitles
    requires !row.status.Extracting? && !row.status.Transcribing?
    ensures MutexInv(timeout, Goto(db.(subtitles := db.subtitles[id := row]), w, Top))
  {
    FinishKeeps(timeout, db, db.(subtitles := db.subtitles[id := row]), w, Subtitle(id));
  }

  lemma AudioKeeps(timeout: nat, db: Db, w: WorkerId, id: RowId, ok: bool)
    requires MutexInv(timeout, db) && Owns(db, w, Subtitle(id))
    ensures MutexInv(timeout, AudioStep(db, w, id, ok))
  {
    if ok && id in db.subtitles {
      var db1 := SetSubtitleStatus(db, id, Transcribing);
      assert Active(db, Subtitle(id));
      HoldKeeps(timeout, db, db1, Subtitle(id));
      GotoKeeps(timeout, db1, w, Transcribe(id));
    } else {
      GotoKeeps(timeout, db, w, FailSubtitle(id));
    }
  }

  lemma SubtitleWorkKeeps(timeout: nat, db: Db, w: WorkerId, ok: bool, expiresAt: int, resultKey: string, id: RowId)
    requires MutexInv(timeout, db) && w in db.workers && Owned(db.workers[w]) == Some(Subtitle(id))
    ensures MutexInv(timeout, WorkStep(db, w, ok, expiresAt, resultKey))
  {
    assert Owns(db, w, Subtitle(id));
    match db.workers[w]
    case Source(_) => GotoKeeps(timeout, db, w, if ok then ExtractAudio(id) else FailSubtitle(id));
    case ExtractAudio(_) => AudioKeeps(timeout, db, w, id, ok);
    case Transcribe(_) => GotoKeeps(timeout, db, w, if ok then Finish(id) else FailSubtitle(id));
    case Finish(_) =>
      if id in db.subtitles {
        CloseSubtitleKeeps(timeout, db, w, id, db.subtitles[id].(status := SCompleted, resultKey := Some(resultKey)));
      } else {
        GotoKeeps(timeout, db, w, FailSubtitle(id));
      }
    case FailSubtitle(_) =>
      if id in db.subtitles {
        CloseSubtitleKeeps(timeout, db, w, id, db.subtitles[id].(status := SFailed));
      } else {
        GotoKeeps(timeout, db, w, Top);
      }
  }

  // ---- requests and sweeps ----

  lemma InsertKeeps(timeout: nat, db: Db, db1: Db, r: RowRef)
    requires MutexInv(timeout, db)
    requires db1.workers == db.workers && db1.now == db.now && db1.nextRow == db.nextRow + 1
    requires r.id == db.nextRow && forall s :: Exists(db1, s) <==> Exists(db, s) || s == r
    requires forall s :: Active(db1, s) <==> Active(db, s)
    requires forall s :: Exists(db, s) ==> StartedAt(db1, s) == StartedAt(db, s)
    requires db.downloads.Keys <= db1.downloads.Keys
    ensures MutexInv(timeout, db1)
  {
    assert forall v, s :: Owns(db1, v, s) <==> Owns(db, v, s);
  }

  lemma RequestKeeps(timeout: nat, db: Db, e: Event)
    requires MutexInv(timeout, db)
    requires e.InsertDownload? || e.InsertSubtitle? || e.DeleteSubtitle? || e.DeleteAsset?
    ensures MutexInv(timeout, Step(timeout, db, e))
  {
    var db' := Step(timeout, db, e);
    match e
    case InsertDownload(triple, asset) =>
      if db' != db { InsertKeeps(timeout, db, db', Download(db.nextRow)); }
    case InsertSubtitle(_, _) => InsertKeeps(timeout, db, db', Subtitle(db.nextRow));
    case DeleteAsset(id) => AssetsAside(timeout, db, db');
    case DeleteSubtitle(id) =>
      assert forall s :: Exists(db', s) <==> Exists(db, s) && s != Subtitle(id);
      assert forall s :: Active(db', s) <==> Active(db, s) && s != Subtitle(id);
      assert forall s :: Exists(db', s) ==> StartedAt(db', s) == StartedAt(db, s);
      assert forall v, s :: Owns(db', v, s) <==> Owns(db, v, s);
  }

  lemma TickKeeps(timeout: nat, db: Db, now: int)
    requires MutexInv(timeout, db) && now >= db.now
    ensures MutexInv(timeout, db.(now := now))
  {
    var db' := db.(now := now);
    assert forall v, s :: Owns(db', v, s) <==> Owns(db, v, s);
    assert forall s :: (Exists(db', s) <==> Exists(db, s)) && (Active(db', s) <==> Active(db, s));
    assert forall s :: Exists(db, s) ==> StartedAt(db', s) == StartedAt(db, s);
  }

  // ---- every step, every run ----

  /** The one thing that can go wrong in a step: a restore that takes a live worker's row. */
  ghost predicate SafeStep(db: Db, e: Event) {
    e.Restore? && e.w in db.workers ==> LiveRowsSpared(db, e.w)
  }

  lemma WorkerStepKeeps(timeout: nat, db: Db, e: Event)
    requires MutexInv(timeout, db) && SafeStep(db, e)
    requires e.BeginRestore? || e.Restore? || e.Conflict? || e.TryClaim? || e.Work? || e.StatementFails? || e.Crash?
    requires e.w in db.workers
    ensures MutexInv(timeout, Step(timeout, db, e))
  {
    var p := db.workers[e.w];
    match e
    case BeginRestore(w) => if p.Top? { GotoKeeps(timeout, db, w, RestoreDownloads(db.now - timeout)); }
    case Restore(w) => if Cutoff(p).Some? { RestoreTableKeeps(timeout, db, w); }
    case Conflict(w) => if p.Claim? { GotoKeeps(timeout, db, w, ConflictStep(db, w, p.attempt).workers[w]); }
    case TryClaim(w) => if p.Claim? { ClaimKeeps(timeout, db, w); }
    case Work(w, ok, expiresAt, resultKey) =>
      match Owned(p) {
        case Some(Download(id)) => DownloadWorkKeeps(timeout, db, w, ok, expiresAt, resultKey, id);
        case Some(Subtitle(id)) => SubtitleWorkKeeps(timeout, db, w, ok, expiresAt, resultKey, id);
        case None =>
      }
    case StatementFails(w) => GotoKeeps(timeout, db, w, AfterError(p));
    case Crash(w) => GotoKeeps(timeout, db, w, Top);
  }

  lemma StepKeeps(timeout: nat, db: Db, e: Event)
    requires MutexInv(timeout, db) && SafeStep(db, e)
    ensures MutexInv(timeout, Step(timeout, db, e))
  {
    match e
    case Tick(now) => if now >= db.now { TickKeeps(timeout, db, now); }
    case InsertDownload(_, _) => RequestKeeps(timeout, db, e);
    case InsertSubtitle(_, _) => RequestKeeps(timeout, db, e);
    case DeleteSubtitle(_) => RequestKeeps(timeout, db, e);
    case DeleteAsset(_) => RequestKeeps(timeout, db, e);
    case _ => if e.w in db.workers { WorkerStepKeeps(timeout, db, e); }
  }

  // ---- one worker ----

  predicate Solo(db: Db, v: WorkerId) {
    db.workers.Keys == {v}
  }

  lemma GotoKeepsWorkers(db: Db, w: WorkerId, p: Phase)
    requires w in db.workers
    ensures Goto(db, w, p).workers.Keys == db.workers.Keys
  {
  }

  lemma DownloadWorkIsGoto(db: Db, w: WorkerId, ok: bool, expiresAt: int, resultKey: string)
    requires w in db.workers && Owned(db.workers[w]).Some? && Owned(db.workers[w]).value.Download?
    ensures var db' := WorkStep(db, w, ok, expiresAt, resultKey);
            w in db'.workers && db'.workers == db.workers[w := db'.workers[w]]
  {
  }

  lemma SubtitleWorkIsGoto(db: Db, w: WorkerId, ok: bool, expiresAt: int, resultKey: string)
    requires w in db.workers && Owned(db.workers[w]).Some? && Owned(db.workers[w]).value.Subtitle?
    ensures var db' := WorkStep(db, w, ok, expiresAt, resultKey);
            w in db'.workers && db'.workers == db.workers[w := db'.workers[w]]
  {
  }

  lemma WorkIsGoto(db: Db, w: WorkerId, ok: bool, expiresAt: int, resultKey: string)
    requires w in db.workers
    ensures var db' := WorkStep(db, w, ok, expiresAt, resultKey);
            w in db'.workers && db'.workers == db.workers[w := db'.workers[w]]
  {
    match Owned(db.workers[w])
    case Some(Download(_)) => DownloadWorkIsGoto(db, w, ok, expiresAt, resultKey);
    case Some(Subtitle(_)) => SubtitleWorkIsGoto(db, w, ok, expiresAt, resultKey);
    case None => assert WorkStep(db, w, ok, expiresAt, resultKey) == db;
  }

  lemma WorkKeepsWorkers(db: Db, w: WorkerId, ok: bool, expiresAt: int, resultKey: string)
    requires w in db.workers
    ensures WorkStep(db, w, ok, expiresAt, resultKey).workers.Keys == db.workers.Keys
  {
    WorkIsGoto(db, w, ok, expiresAt, resultKey);
    GotoKeepsWorkers(db, w, WorkStep(db, w, ok, expiresAt, resultKey).workers[w]);
  }

  /** No step adds or removes a worker process. */
  lemma WorkersStay(timeout: nat, db: Db, e: Event)
    ensures Step(timeout, db, e).workers.Keys == db.workers.Keys
  {
    match e
    case Work(w, ok, expiresAt, resultKey) =>
      if w in db.workers { WorkKeepsWorkers(db, w, ok, expiresAt, resultKey); }
    case InsertDownload(_, _) => assert Step(timeout, db, e).workers == db.workers;
    case TryClaim(w) =>
      if w in db.workers {
        var db' := ClaimStep(db, w);
        assert db'.workers == db.workers || db'.workers == db.workers[w := db'.workers[w]];
      }
    case _ =>
  }

  /** A single worker never restores while it processes. */
  lemma SoloIsSafe(db: Db, v: WorkerId, e: Event)
    requires Solo(db, v)
    ensures SafeStep(db, e)
  {
  }

  lemma {:induction false} SoloKeeps(timeout: nat, db: Db, v: WorkerId, es: seq<Event>)
    requires MutexInv(timeout, db) && Solo(db, v)
    ensures MutexInv(timeout, After(timeout, db, es))
    decreases |es|
  {
    if es != [] {
      SoloIsSafe(db, v, es[0]);
      StepKeeps(timeout, db, es[0]);
      WorkersStay(timeout, db, es[0]);
      SoloKeeps(timeout, Step(timeout, db, es[0]), v, es[1..]);
    }
  }

  /** The documented deployment: one worker, any requests, sweeps, crashes and restarts. */
  lemma SingleWorkerExclusion(timeout: nat, db: Db, v: WorkerId, es: seq<Event>)
    requires Fresh(db) && Solo(db, v)
    ensures OneActive(After(timeout, db, es)) && OwnersActive(After(timeout, db, es))
    ensures ActiveStamped(After(timeout, db, es))
  {
    FreshInv(timeout, db);
    SoloKeeps(timeout, db, v, es);
  }

  // ---- any number of workers, under a lease ----

  /** Every live owner is still within the processing timeout. */
  ghost predicate LeaseHeld(timeout: nat, db: Db) {
    forall w, r :: Owns(db, w, r) && Exists(db, r) && StartedAt(db, r).Some? ==>
      db.now <= StartedAt(db, r).value + timeout
  }

  ghost predicate LeasedRun(timeout: nat, db: Db, es: seq<Event>)
    decreases |es|
  {
    LeaseHeld(timeout, db) && (es == [] || LeasedRun(timeout, Step(timeout, db, es[0]), es[1..]))
  }

  lemma LeaseIsSafe(timeout: nat, db: Db, e: Event)
    requires MutexInv(timeout, db) && LeaseHeld(timeout, db)
    ensures SafeStep(db, e)
  {
    if e.Restore? && e.w in db.workers {
      forall v, r | Owns(db, v, r) && Exists(db, r) && Cutoff(db.workers[e.w]).Some?
        ensures !Stale(StartedAt(db, r), Cutoff(db.workers[e.w]).value)
      {
      }
      forall v, id | Owns(db, v, Download(id)) ensures id in db.downloads ==> Exists(db, Download(id)) {}
      assert forall v, id :: Owns(db, v, Download(id)) && id in db.downloads ==>
          StartedAt(db, Download(id)) == db.downloads[id].startedAt;
      assert forall v, id :: Owns(db, v, Subtitle(id)) && id in db.subtitles ==>
          StartedAt(db, Subtitle(id)) == db.subtitles[id].startedAt;
    }
  }

  lemma {:induction false} LeasedWorkersExclusion(timeout: nat, db: Db, es: seq<Event>)
    requires MutexInv(timeout, db) && LeasedRun(timeout, db, es)
    ensures MutexInv(timeout, After(timeout, db, es))
    decreases |es|
  {
    if es != [] {
      LeaseIsSafe(timeout, db, es[0]);
      StepKeeps(timeout, db, es[0]);
      LeasedWorkersExclusion(timeout, Step(timeout, db, es[0]), es[1..]);
    }
  }
}
