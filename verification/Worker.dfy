/**
 The worker's loop as code: `restoreStuckJobs`, the bounded retry of
 `claimNextQueuedJob`, and the two `process` methods against a database object,
 proved to be runs of the protocol.
 */
module WorkerLoop {
  import opened Common
  import P = WorkerProtocol
  import R = WorkerRecovery
  import A = AssetIndex

  /** How one attempt at the claim transaction ends. */
  datatype Attempt = Committed | SerializationConflict | OtherError

  /** How the calls outside the database end while one job is processed. */
  datatype Answers = Answers(
    objectExists: bool, extracted: bool, expiresAt: int, source: bool, audio: bool, transcribed: bool, resultKey: string)

  datatype ClaimResult = Claimed(job: P.RowRef) | NothingToDo | Threw

  class Database {
    var downloads: map<P.RowId, P.DownloadRow>
    var subtitles: map<P.RowId, P.SubtitleRow>
    var assets: map<P.AssetId, P.Asset>
    var objects: set<string>
    var nextAsset: P.AssetId
    var now: int
    ghost var workers: map<P.WorkerId, P.Phase>
    var nextRow: P.RowId

    ghost function View(): P.Db
      reads this
    {
      P.Db(downloads, subtitles, assets, objects, workers, now, nextRow, nextAsset)
    }

    ghost method Goto(w: P.WorkerId, p: P.Phase)
      modifies this`workers
      ensures View() == P.Goto(old(View()), w, p)
    {
      workers := workers[w := p];
    }

    /** `findFirst` on an unexpired asset of the triple, which is unique. */
    method FindReusable(t: P.Triple) returns (a: Option<P.AssetId>)
      requires A.TableInv(View())
      ensures a == P.Reusable(View(), t)
    {
      if x :| x in assets && assets[x].triple == t && assets[x].expiresAt > now {
        a := Some(x);
      } else {
        a := None;
      }
    }

    /** `delete` of an asset row; the foreign key nulls every reference to it. */
    method DeleteAsset(asset: P.AssetId)
      modifies this`assets, this`downloads
      ensures View() == P.WithoutAsset(old(View()), asset)
    {
      assets := assets - {asset};
      downloads := map j | j in downloads ::
        if downloads[j].assetId == Some(asset) then downloads[j].(assetId := None) else downloads[j];
    }
  }

  class Worker {
    const id: P.WorkerId
    const timeout: nat
    const db: Database

    constructor (id: P.WorkerId, timeout: nat, db: Database)
      ensures this.id == id && this.timeout == timeout && this.db == db
    {
      this.id, this.timeout, this.db := id, timeout, db;
    }

    ghost predicate At(p: P.Phase)
      reads this, db
    {
      id in db.View().workers && db.View().workers[id] == p
    }

    /** The first `updateMany`. */
    method RestoreDownloads(cutoff: int)
      requires At(P.RestoreDownloads(cutoff))
      modifies db
      ensures db.View() == P.Goto(P.RestoreDownloadTable(old(db.View()), cutoff), id, P.RestoreSubtitles(cutoff))
    {
      db.downloads := map j | j in db.downloads ::
        if db.downloads[j].status.Processing? && db.downloads[j].startedAt.Some?
           && db.downloads[j].startedAt.value < cutoff
        then db.downloads[j].(status := P.DQueued, startedAt := None) else db.downloads[j];
      assert db.downloads == P.RestoreDownloadTable(old(db.View()), cutoff).downloads;
      db.Goto(id, P.RestoreSubtitles(cutoff));
    }

    /** The second `updateMany`. */
    method RestoreSubtitles(cutoff: int)
      requires At(P.RestoreSubtitles(cutoff))
      modifies db
      ensures db.View() == P.Goto(P.RestoreSubtitleTable(old(db.View()), cutoff), id, P.Claim(0))
    {
      db.subtitles := map j | j in db.subtitles ::
        if (db.subtitles[j].status.Extracting? || db.subtitles[j].status.Transcribing?)
           && db.subtitles[j].startedAt.Some? && db.subtitles[j].startedAt.value < cutoff
        then db.subtitles[j].(status := P.SQueued, startedAt := None) else db.subtitles[j];
      assert db.subtitles == P.RestoreSubtitleTable(old(db.View()), cutoff).subtitles;
      db.Goto(id, P.Claim(0));
    }

    /** Both statements, with the cutoff read once before them. */
    method RestoreStuckJobs()
      requires At(P.Top)
      modifies db
      ensures db.View() == R.RestoreBoth(timeout, old(db.View()), id)
      ensures At(P.Claim(0))
    {
      ghost var before := db.View();
      var cutoff := db.now - timeout;
      db.Goto(id, P.RestoreDownloads(cutoff));
      RestoreDownloads(cutoff);
      RestoreSubtitles(cutoff);
      R.RestoreBothSteps(timeout, before, id);
    }

    /** `findFirst` ordered by creation time and id. */
    method OldestOf(s: set<P.Candidate>) returns (c: Option<P.Candidate>)
      ensures c == P.FindFirst(s)
    {
      if s == {} {
        return None;
      }
      P.OldestExists(s);
      var x :| P.IsOldest(x, s);
      assert P.Before(x, P.FindFirst(s).value) && P.Before(P.FindFirst(s).value, x);
      c := Some(x);
    }

    /** The two `findFirst` guards. */
    method AnyProcessing() returns (busy: bool)
      ensures busy <==> P.AnyActive(db.View())
    {
      var busyDownload := exists j :: j in db.downloads && db.downloads[j].status.Processing?;
      var busySubtitle := exists j :: j in db.subtitles
                                      && (db.subtitles[j].status.Extracting? || db.subtitles[j].status.Transcribing?);
      busy := busyDownload || busySubtitle;
    }

    /** The two ordered `findFirst` queries on queued rows. */
    method Heads() returns (download: Option<P.Candidate>, subtitle: Option<P.Candidate>)
      ensures download == P.FindFirst(P.QueuedDownloads(db.View()))
      ensures subtitle == P.FindFirst(P.QueuedSubtitles(db.View()))
    {
      var downloads := set j | j in db.downloads && db.downloads[j].status.DQueued? ::
        P.Candidate(db.downloads[j].createdAt, j);
      var subtitles := set j | j in db.subtitles && db.subtitles[j].status.SQueued? ::
        P.Candidate(db.subtitles[j].createdAt, j);
      assert downloads == P.QueuedDownloads(db.View());
      assert subtitles == P.QueuedSubtitles(db.View());
      download := OldestOf(downloads);
      subtitle := OldestOf(subtitles);
    }

    /** The body of the serializable transaction, when it commits. */
    method ClaimTransaction() returns (job: Option<P.RowRef>)
      requires id in db.View().workers
      modifies db
      ensures db.View() == P.ClaimStep(old(db.View()), id)
      ensures job.Some? <==> !P.AnyActive(old(db.View())) && P.NextJob(old(db.View())).Some?
      ensures job.Some? ==> job == P.NextJob(old(db.View())) && P.Owns(db.View(), id, job.value)
    {
      R.NextJobIsOldest(db.View());
      var busy := AnyProcessing();
      if busy {
        db.Goto(id, P.Top);
        return None;
      }
      var download, subtitle := Heads();
      job := P.SelectNext(download, subtitle);
      if job.None? {
        db.Goto(id, P.Top);
      } else {
        Take(job.value);
      }
    }

    method Take(job: P.RowRef)
      requires id in db.View().workers && P.Waiting(db.View(), job)
      modifies db
      ensures db.View() == match job
                           case Download(j) => P.TakeDownload(old(db.View()), id, j)
                           case Subtitle(j) => P.TakeSubtitle(old(db.View()), id, j)
    {
      match job {
        case Download(j) =>
          db.downloads := db.downloads[j := db.downloads[j].(status := P.Processing, startedAt := Some(db.now))];
          db.Goto(id, P.Reuse(j));
        case Subtitle(j) =>
          db.subtitles := db.subtitles[j := db.subtitles[j].(status := P.Extracting, startedAt := Some(db.now))];
          db.Goto(id, P.Source(j));
      }
    }

    /** Up to three attempts; only a serialization conflict is retried. `attempts` is what the database answers. */
    method ClaimNextQueuedJob(attempts: seq<Attempt>) returns (r: ClaimResult)
      requires At(P.Claim(0)) && |attempts| == P.CLAIM_ATTEMPTS
      modifies db
      ensures var before := old(db.View());
              match FirstAnswer(attempts)
              case None => r == NothingToDo && db.View() == P.Goto(before, id, P.Top)
              case Some(OtherError) => r == Threw && db.View() == P.Goto(before, id, P.Top)
              case Some(_) =>
                db.View() == P.ClaimStep(before, id)
                && (r.Claimed? <==> !P.AnyActive(before) && P.NextJob(before).Some?)
                && (r.Claimed? ==> P.NextJob(before) == Some(r.job) && P.Owns(db.View(), id, r.job))
                && r != Threw
    {
      var attempt := 0;
      while attempt < 3
        invariant 0 <= attempt <= 3 && FirstAnswer(attempts) == FirstAnswer(attempts[attempt..])
        invariant db.View() == old(db.View())
      {
        assert attempts[attempt..][1..] == attempts[attempt + 1..];
        match attempts[attempt] {
          case Committed =>
            var job := ClaimTransaction();
            return if job.Some? then Claimed(job.value) else NothingToDo;
          case OtherError =>
            db.Goto(id, P.Top);
            return Threw;
          case SerializationConflict =>
        }
        attempt := attempt + 1;
      }
      db.Goto(id, P.Top);
      r := NothingToDo;
    }

    // ---- processing a download job ----

    /** `upsert` on the unique triple. */
    method UpsertAsset(job: P.RowId, expiresAt: int) returns (a: P.AssetId)
      requires At(P.Upsert(job)) && job in db.downloads && A.TableInv(db.View())
      modifies db`assets, db`nextAsset, db`workers
      ensures db.View() == P.UpsertStep(old(db.View()), id, job, expiresAt)
      ensures At(P.Complete(job, a)) && a in db.assets && db.assets[a].triple == db.downloads[job].triple
    {
      var t := db.downloads[job].triple;
      if x :| x in db.assets && db.assets[x].triple == t {
        a := x;
        db.assets := db.assets[a := db.assets[a].(expiresAt := expiresAt, objectKey := P.AssetKey(t))];
      } else {
        a := db.nextAsset;
        db.assets := db.assets[a := P.Asset(t, P.AssetKey(t), expiresAt)];
        db.nextAsset := db.nextAsset + 1;
      }
      db.Goto(id, P.Complete(job, a));
    }

    method MarkCompleted(job: P.RowId, asset: P.AssetId)
      requires At(P.Complete(job, asset)) && job in db.downloads && asset in db.assets
      modifies db`downloads, db`workers
      ensures db.View() == P.CompleteStep(old(db.View()), id, job, asset)
    {
      db.downloads := db.downloads[job := db.downloads[job].(status := P.DCompleted, assetId := Some(asset))];
      db.Goto(id, P.Top);
    }

    method MarkFailed(job: P.RowId)
      requires At(P.Fail(job)) && job in db.downloads
      modifies db`downloads, db`workers
      ensures db.View() == P.FailStep(old(db.View()), id, job)
    {
      db.downloads := db.downloads[job := db.downloads[job].(status := P.DFailed)];
      db.Goto(id, P.Top);
    }

    /** The job is completed with an asset of its own triple. */
    ghost predicate Completed(job: P.RowId)
      reads this, db
    {
      && job in db.downloads && db.downloads[job].status.DCompleted? && db.downloads[job].assetId.Some?
      && db.downloads[job].assetId.value in db.assets
      && db.assets[db.downloads[job].assetId.value].triple == db.downloads[job].triple
    }

    /** The reusable asset's object is there: the job is completed on it. */
    method CompleteReused(job: P.RowId, asset: P.AssetId, ok: bool) returns (ghost es: seq<P.Event>)
      requires At(P.CheckReuse(job, asset)) && job in db.downloads && asset in db.assets && ok
      requires db.assets[asset].triple == db.downloads[job].triple
      modifies db
      ensures db.View() == P.After(timeout, old(db.View()), es) && At(P.Top) && Completed(job)
    {
      ghost var v0, step := db.View(), P.Work(id, ok, 0, "");
      db.Goto(id, P.Complete(job, asset));
      ghost var v1 := db.View();
      MarkCompleted(job, asset);
      es := [step, step];
      R.RunTwo(timeout, v0, v1, step, step);
    }

    /** Its object is gone: the row is deleted and the job goes on to the extraction. */
    method DropReused(job: P.RowId, asset: P.AssetId, ok: bool) returns (ghost es: seq<P.Event>)
      requires At(P.CheckReuse(job, asset)) && job in db.downloads && asset in db.assets && !ok && A.TableInv(db.View())
      modifies db
      ensures db.View() == P.After(timeout, old(db.View()), es)
      ensures At(P.Extract(job)) && job in db.downloads && A.TableInv(db.View()) && asset !in db.assets
    {
      ghost var v0, step := db.View(), P.Work(id, ok, 0, "");
      db.Goto(id, P.DropReuse(job, asset));
      ghost var v1 := db.View();
      db.DeleteAsset(asset);
      db.Goto(id, P.Extract(job));
      es := [step, step];
      R.RunTwo(timeout, v0, v1, step, step);
    }

    /** The reuse check at the start of `processJob`: completes the job, or leaves it to the extraction. */
    method TryReuse(job: P.RowId, objectExists: bool) returns (done: bool, ghost es: seq<P.Event>)
      requires At(P.Reuse(job)) && job in db.downloads && A.TableInv(db.View())
      modifies db
      ensures db.View() == P.After(timeout, old(db.View()), es)
      ensures done <==> objectExists && P.Reusable(old(db.View()), old(db.downloads[job].triple)).Some?
      ensures done ==> At(P.Top) && Completed(job)
      ensures !done ==> At(P.Extract(job)) && job in db.downloads && A.TableInv(db.View())
    {
      ghost var v0, look, rest := db.View(), P.Work(id, objectExists, 0, ""), [];
      var reusable := db.FindReusable(db.downloads[job].triple);
      db.Goto(id, if reusable.Some? then P.CheckReuse(job, reusable.value) else P.Extract(job));
      R.RunOne(timeout, v0, look);
      es := [look];
      done := false;
      if reusable.Some? {
        if objectExists {
          rest := CompleteReused(job, reusable.value, objectExists);
          done := true;
        } else {
          rest := DropReused(job, reusable.value, objectExists);
        }
        R.AfterConcat(timeout, v0, [look], rest);
        es := [look] + rest;
      }
    }

    /** The extraction or its upload fails. */
    method GiveUp(job: P.RowId, expiresAt: int) returns (ghost es: seq<P.Event>)
      requires At(P.Extract(job)) && job in db.downloads
      modifies db
      ensures db.View() == P.After(timeout, old(db.View()), es) && At(P.Top)
      ensures job in db.downloads && db.downloads[job].status.DFailed?
    {
      ghost var v0, step := db.View(), P.Work(id, false, expiresAt, "");
      db.Goto(id, P.Fail(job));
      ghost var v1 := db.View();
      MarkFailed(job);
      es := [step, step];
      R.RunTwo(timeout, v0, v1, step, step);
    }

    /** The extracted file is uploaded under the triple's key. */
    method Upload(job: P.RowId)
      requires At(P.Extract(job)) && job in db.downloads
      modifies db`objects, db`workers
      ensures db.View() == P.ExtractStep(old(db.View()), id, job, true) && At(P.Upsert(job))
    {
      db.objects := db.objects + {P.AssetKey(db.downloads[job].triple)};
      db.Goto(id, P.Upsert(job));
    }

    /** The upload, then the upsert of the asset row. */
    method Store(job: P.RowId, expiresAt: int) returns (asset: P.AssetId, ghost es: seq<P.Event>)
      requires At(P.Extract(job)) && job in db.downloads && A.TableInv(db.View())
      modifies db
      ensures db.View() == P.After(timeout, old(db.View()), es) && At(P.Complete(job, asset)) && job in db.downloads
      ensures asset in db.assets && db.assets[asset].triple == db.downloads[job].triple
      ensures P.AssetKey(db.downloads[job].triple) in db.objects
    {
      ghost var v0, step := db.View(), P.Work(id, true, expiresAt, "");
      Upload(job);
      ghost var v1 := db.View();
      asset := UpsertAsset(job, expiresAt);
      es := [step, step];
      R.RunTwo(timeout, v0, v1, step, step);
    }

    /** The rest of `processJob`: extract and upload, then upsert and complete, or fail. */
    method ExtractAndStore(job: P.RowId, extracted: bool, expiresAt: int) returns (ghost es: seq<P.Event>)
      requires At(P.Extract(job)) && job in db.downloads && A.TableInv(db.View())
      modifies db
      ensures db.View() == P.After(timeout, old(db.View()), es) && At(P.Top) && job in db.downloads
      ensures if extracted then Completed(job) && P.AssetKey(db.downloads[job].triple) in db.objects
              else db.downloads[job].status.DFailed?
    {
      if !extracted {
        es := GiveUp(job, expiresAt);
        return;
      }
      ghost var v0, stored, step := db.View(), [], P.Work(id, true, expiresAt, "");
      var asset;
      asset, stored := Store(job, expiresAt);
      MarkCompleted(job, asset);
      es := stored + [step];
      R.AfterSnoc(timeout, v0, stored, step);
    }

    /**
     `processJob`: the job ends completed, on an asset of its own triple, exactly when a reusable asset
     has its object or the extraction and its upload succeed; otherwise it ends failed.
     */
    method ProcessJob(job: P.RowId, objectExists: bool, extracted: bool, expiresAt: int) returns (ghost es: seq<P.Event>)
      requires At(P.Reuse(job)) && job in db.downloads && A.TableInv(db.View())
      modifies db
      ensures db.View() == P.After(timeout, old(db.View()), es) && At(P.Top)
      ensures job in db.downloads
      ensures var reused := objectExists && P.Reusable(old(db.View()), old(db.downloads[job].triple)).Some?;
              if reused || extracted then Completed(job) else db.downloads[job].status.DFailed?
    {
      ghost var v0 := db.View();
      ghost var first, second;
      var done;
      done, first := TryReuse(job, objectExists);
      es := first;
      if !done {
        second := ExtractAndStore(job, extracted, expiresAt);
        R.AfterConcat(timeout, v0, first, second);
        es := first + second;
      }
    }

    // ---- processing a subtitle job ----

    method SetSubtitleStatus(job: P.RowId, status: P.SubtitleStatus)
      requires job in db.subtitles
      modifies db`subtitles
      ensures db.View() == P.SetSubtitleStatus(old(db.View()), job, status)
    {
      db.subtitles := db.subtitles[job := db.subtitles[job].(status := status)];
    }

    /** `markSubtitleFailed`, from wherever the job stood. */
    method FailSubtitle(job: P.RowId)
      requires At(P.FailSubtitle(job)) && job in db.subtitles
      modifies db
      ensures db.View() == P.FailSubtitleStep(old(db.View()), id, job) && At(P.Top)
      ensures job in db.subtitles && db.subtitles[job].status.SFailed?
    {
      SetSubtitleStatus(job, P.SFailed);
      db.Goto(id, P.Top);
    }

    /** Source and audio; true once the row is marked transcribing. */
    method PrepareAudio(job: P.RowId, source: bool, audio: bool) returns (ok: bool, ghost es: seq<P.Event>)
      requires At(P.Source(job)) && job in db.subtitles
      modifies db
      ensures db.View() == P.After(timeout, old(db.View()), es) && job in db.subtitles
      ensures ok <==> source && audio
      ensures if ok then At(P.Transcribe(job)) && db.subtitles[job].status.Transcribing? else At(P.FailSubtitle(job))
    {
      ghost var v0, first, second := db.View(), P.Work(id, source, 0, ""), P.Work(id, audio, 0, "");
      if !source {
        db.Goto(id, P.FailSubtitle(job));
        es := [first];
        R.RunOne(timeout, v0, first);
        return false, es;
      }
      db.Goto(id, P.ExtractAudio(job));
      ghost var v1 := db.View();
      if audio {
        SetSubtitleStatus(job, P.Transcribing);
      }
      db.Goto(id, if audio then P.Transcribe(job) else P.FailSubtitle(job));
      es := [first, second];
      R.RunTwo(timeout, v0, v1, first, second);
      ok := audio;
    }

    method CompleteSubtitle(job: P.RowId, resultKey: string)
      requires At(P.Finish(job)) && job in db.subtitles
      modifies db
      ensures db.View() == P.FinishStep(old(db.View()), id, job, resultKey) && At(P.Top) && job in db.subtitles
      ensures db.subtitles[job].status.SCompleted? && db.subtitles[job].resultKey == Some(resultKey)
    {
      db.subtitles := db.subtitles[job := db.subtitles[job].(status := P.SCompleted, resultKey := Some(resultKey))];
      db.Goto(id, P.Top);
    }

    /** The transcription succeeds and its result is uploaded. */
    method StoreTranscript(job: P.RowId, resultKey: string) returns (ghost es: seq<P.Event>)
      requires At(P.Transcribe(job)) && job in db.subtitles
      modifies db
      ensures db.View() == P.After(timeout, old(db.View()), es) && At(P.Top) && job in db.subtitles
      ensures db.subtitles[job].status.SCompleted? && db.subtitles[job].resultKey == Some(resultKey)
    {
      ghost var v0, step := db.View(), P.Work(id, true, 0, resultKey);
      db.Goto(id, P.Finish(job));
      ghost var v1 := db.View();
      assert v1 == P.Step(timeout, v0, step);
      CompleteSubtitle(job, resultKey);
      es := [step, step];
      R.RunTwo(timeout, v0, v1, step, step);
    }

    /** The transcription or the upload of its result fails. */
    method LoseTranscript(job: P.RowId) returns (ghost es: seq<P.Event>)
      requires At(P.Transcribe(job)) && job in db.subtitles
      modifies db
      ensures db.View() == P.After(timeout, old(db.View()), es) && At(P.Top)
      ensures job in db.subtitles && db.subtitles[job].status.SFailed?
    {
      ghost var v0, step := db.View(), P.Work(id, false, 0, "");
      db.Goto(id, P.FailSubtitle(job));
      ghost var v1 := db.View();
      assert v1 == P.Step(timeout, v0, step);
      FailSubtitle(job);
      es := [step, step];
      R.RunTwo(timeout, v0, v1, step, step);
    }

    /** `processSubtitleJob`: ends with the job completed under its result key, or failed. */
    method ProcessSubtitleJob(job: P.RowId, source: bool, audio: bool, transcribed: bool, resultKey: string)
      returns (ghost es: seq<P.Event>)
      requires At(P.Source(job)) && job in db.subtitles
      modifies db
      ensures db.View() == P.After(timeout, old(db.View()), es) && At(P.Top) && job in db.subtitles
      ensures if source && audio && transcribed
              then db.subtitles[job].status.SCompleted? && db.subtitles[job].resultKey == Some(resultKey)
              else db.subtitles[job].status.SFailed?
    {
      ghost var v0, prepared, finishing := db.View(), [], [];
      var ok;
      ok, prepared := PrepareAudio(job, source, audio);
      if ok && transcribed {
        finishing := StoreTranscript(job, resultKey);
      } else if ok {
        finishing := LoseTranscript(job);
      } else {
        ghost var v1, step := db.View(), P.Work(id, false, 0, resultKey);
        FailSubtitle(job);
        finishing := [step];
        R.RunOne(timeout, v1, step);
      }
      es := prepared + finishing;
      R.AfterConcat(timeout, v0, prepared, finishing);
    }

    // ---- one turn of the main loop ----

    /** What `processJob` or `processSubtitleJob` meets outside the database. */
    method Process(job: P.RowRef, answers: Answers)
      requires A.TableInv(db.View()) && P.Exists(db.View(), job)
      requires match job case Download(j) => At(P.Reuse(j)) case Subtitle(j) => At(P.Source(j))
      modifies db
      ensures At(P.Top) && P.Exists(db.View(), job) && !P.Active(db.View(), job) && !P.Waiting(db.View(), job)
    {
      match job {
        case Download(j) =>
          ghost var es := ProcessJob(j, answers.objectExists, answers.extracted, answers.expiresAt);
        case Subtitle(j) =>
          ghost var es := ProcessSubtitleJob(j, answers.source, answers.audio, answers.transcribed, answers.resultKey);
      }
    }

    /** Restore, claim, process: a claimed job is neither waiting nor active at the end of the turn. */
    method Turn(attempts: seq<Attempt>, answers: Answers) returns (r: ClaimResult)
      requires At(P.Top) && A.TableInv(db.View()) && |attempts| == P.CLAIM_ATTEMPTS
      modifies db
      ensures At(P.Top)
      ensures r.Claimed? ==>
                && P.NextJob(R.RestoreBoth(timeout, old(db.View()), id)) == Some(r.job)
                && !P.AnyActive(R.RestoreBoth(timeout, old(db.View()), id))
                && P.Exists(db.View(), r.job) && !P.Active(db.View(), r.job) && !P.Waiting(db.View(), r.job)
    {
      ghost var before := db.View();
      RestoreStuckJobs();
      R.RestoreBothSteps(timeout, before, id);
      ghost var restored := db.View();
      r := ClaimNextQueuedJob(attempts);
      R.NextJobIsOldest(restored);
      if r.Claimed? {
        Process(r.job, answers);
      }
    }
  }

  /** None after conflicts only; otherwise the answer all earlier ones were conflicts to. */
  lemma {:induction false} FirstAnswerIs(attempts: seq<Attempt>, i: nat)
    requires i < |attempts| && !attempts[i].SerializationConflict?
    requires forall k :: 0 <= k < i ==> attempts[k].SerializationConflict?
    ensures FirstAnswer(attempts) == Some(attempts[i])
  {
    if i > 0 { FirstAnswerIs(attempts[1..], i - 1); }
  }

  lemma {:induction false} NoAnswerIff(attempts: seq<Attempt>)
    ensures FirstAnswer(attempts).None? <==> forall k :: 0 <= k < |attempts| ==> attempts[k].SerializationConflict?
  {
    if attempts != [] {
      NoAnswerIff(attempts[1..]);
      assert forall k :: 0 <= k < |attempts[1..]| ==> attempts[1..][k] == attempts[k + 1];
      assert forall k :: 0 < k < |attempts| ==> attempts[k] == attempts[1..][k - 1];
    }
  }

  /** The first answer that is not a conflict. */
  function FirstAnswer(attempts: seq<Attempt>): Option<Attempt> {
    if attempts == [] then None
    else if attempts[0].SerializationConflict? then FirstAnswer(attempts[1..])
    else Some(attempts[0])
  }
}
