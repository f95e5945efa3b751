/**
 What each statement of a job does to the tables, the store and the worker, on the database it meets.
 */
module WorkerStages {
  import opened Common
  import opened WorkerProtocol

  predicate At(db: Db, w: WorkerId, p: Phase) {
    w in db.workers && db.workers[w] == p
  }

  /** A claimed download looks for an unexpired asset of its triple: it goes on to check one, or to the extraction if there is none. */
  lemma LookStage(timeout: nat, db: Db, w: WorkerId, id: RowId, ok: bool)
    requires At(db, w, Reuse(id)) && id in db.downloads
    ensures var db1 := Step(timeout, db, Work(w, ok, 0, ""));
            var t := db.downloads[id].triple;
            && db1 == db.(workers := db1.workers)
            && (At(db1, w, Extract(id)) <==> forall a :: a in db.assets && db.assets[a].triple == t ==> db.assets[a].expiresAt <= db.now)
            && (!At(db1, w, Extract(id)) ==>
                  && w in db1.workers && db1.workers[w].CheckReuse? && db1.workers[w].id == id
                  && db1.workers[w].asset in db.assets && db.assets[db1.workers[w].asset].triple == t
                  && db.assets[db1.workers[w].asset].expiresAt > db.now)
  {
  }

  /** The reuse check: an asset whose object is there completes the job, one whose object is gone is deleted, with every reference to it. */
  lemma ReuseStages(timeout: nat, db: Db, w: WorkerId, id: RowId, a: AssetId, ok: bool)
    requires At(db, w, CheckReuse(id, a)) && id in db.downloads && a in db.assets
    ensures var db1 := Step(timeout, db, Work(w, ok, 0, ""));
            var db2 := Step(timeout, db1, Work(w, ok, 0, ""));
            && id in db2.downloads && db2.objects == db.objects && db2.subtitles == db.subtitles
            && (ok ==>
                  && At(db2, w, Top) && db2.assets == db.assets
                  && db2.downloads == db.downloads[id := db.downloads[id].(status := DCompleted, assetId := Some(a))])
            && (!ok ==>
                  && At(db2, w, Extract(id)) && a !in db2.assets
                  && (forall b :: b in db.assets && b != a ==> b in db2.assets && db2.assets[b] == db.assets[b])
                  && db2.downloads.Keys == db.downloads.Keys
                  && (forall j :: j in db.downloads ==>
                        db2.downloads[j] == if db.downloads[j].assetId == Some(a) then db.downloads[j].(assetId := None)
                                            else db.downloads[j]))
  {
    var db1 := Step(timeout, db, Work(w, ok, 0, ""));
    assert db1 == Goto(db, w, if ok then Complete(id, a) else DropReuse(id, a));
  }

  /** The extraction: failed, it fails the job; done, its object is stored; then its row is written, and the job completed on it. */
  lemma ExtractStages(timeout: nat, db: Db, w: WorkerId, id: RowId, ok: bool, expiresAt: int)
    requires At(db, w, Extract(id)) && id in db.downloads
    ensures var db1 := Step(timeout, db, Work(w, ok, expiresAt, ""));
            && db1.downloads == db.downloads && db1.assets == db.assets && db1.subtitles == db.subtitles
            && At(db1, w, if ok then Upsert(id) else Fail(id))
            && db1.objects == db.objects + (if ok then {AssetKey(db.downloads[id].triple)} else {})
  {
  }

  lemma UpsertStage(timeout: nat, db: Db, w: WorkerId, id: RowId, ok: bool, expiresAt: int) returns (a: AssetId)
    requires At(db, w, Upsert(id)) && id in db.downloads && db.nextAsset !in db.assets
    ensures var db1 := Step(timeout, db, Work(w, ok, expiresAt, ""));
            var t := db.downloads[id].triple;
            && At(db1, w, Complete(id, a))
            && db1.assets == db.assets[a := Asset(t, AssetKey(t), expiresAt)]
            && (a in db.assets ==> db.assets[a].triple == t)
            && (a !in db.assets ==> forall b :: b in db.assets ==> db.assets[b].triple != t)
            && db1.downloads == db.downloads && db1.subtitles == db.subtitles && db1.objects == db.objects
  {
    a := UpsertStep(db, w, id, expiresAt).workers[w].asset;
  }

  lemma CompleteStage(timeout: nat, db: Db, w: WorkerId, id: RowId, a: AssetId, ok: bool)
    requires At(db, w, Complete(id, a)) && id in db.downloads && a in db.assets
    ensures var db1 := Step(timeout, db, Work(w, ok, 0, ""));
            && At(db1, w, Top) && db1.assets == db.assets && db1.objects == db.objects && db1.subtitles == db.subtitles
            && db1.downloads == db.downloads[id := db.downloads[id].(status := DCompleted, assetId := Some(a))]
  {
  }

  /** A failing job ends failed, and so does one whose asset has vanished; any error inside a job leads there. */
  lemma FailStages(timeout: nat, db: Db, w: WorkerId, id: RowId, a: AssetId, ok: bool)
    requires id in db.downloads
    ensures At(db, w, Fail(id)) ==>
              var db1 := Step(timeout, db, Work(w, ok, 0, ""));
              At(db1, w, Top) && db1.downloads == db.downloads[id := db.downloads[id].(status := DFailed)]
              && db1.assets == db.assets && db1.objects == db.objects
    ensures At(db, w, Complete(id, a)) && a !in db.assets ==> Step(timeout, db, Work(w, ok, 0, "")) == Goto(db, w, Fail(id))
    ensures w in db.workers && Owned(db.workers[w]) == Some(Download(id)) ==>
              Step(timeout, db, StatementFails(w)) == Goto(db, w, if db.workers[w].Fail? then Top else Fail(id))
    ensures w in db.workers && Owned(db.workers[w]) == Some(Subtitle(id)) ==>
              Step(timeout, db, StatementFails(w)) == Goto(db, w, if db.workers[w].FailSubtitle? then Top else FailSubtitle(id))
  {
  }

  /** A subtitle job goes through audio and transcription to its result; each stage that fails leads to the failed status. */
  lemma SubtitleStages(timeout: nat, db: Db, w: WorkerId, id: RowId, ok: bool, resultKey: string)
    requires id in db.subtitles && w in db.workers && Owned(db.workers[w]) == Some(Subtitle(id))
    ensures var db1 := Step(timeout, db, Work(w, ok, 0, resultKey));
            var row := db.subtitles[id];
            && (db.workers[w].Source? ==> db1 == Goto(db, w, if ok then ExtractAudio(id) else FailSubtitle(id)))
            && (db.workers[w].ExtractAudio? ==>
                  && At(db1, w, if ok then Transcribe(id) else FailSubtitle(id))
                  && db1.subtitles == (if ok then db.subtitles[id := row.(status := Transcribing)] else db.subtitles))
            && (db.workers[w].Transcribe? ==> db1 == Goto(db, w, if ok then Finish(id) else FailSubtitle(id)))
            && (db.workers[w].Finish? ==>
                  && At(db1, w, Top)
                  && db1.subtitles == db.subtitles[id := row.(status := SCompleted, resultKey := Some(resultKey))])
            && (db.workers[w].FailSubtitle? ==>
                  At(db1, w, Top) && db1.subtitles == db.subtitles[id := row.(status := SFailed)])
            && db1.downloads == db.downloads && db1.assets == db.assets
  {
  }
}
