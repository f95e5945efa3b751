/**
 DownloadsService.create as code: reuse a live asset whose object is still there, drop one whose
 object is gone, then insert the job; and its statements as a run of the request's stages.
 */
module DownloadsApi {
  import opened Common
  import P = WorkerProtocol
  import A = AssetIndex
  import W = WorkerLoop

  /** The asset the new job is tied to, if the reusable one's object was found. */
  ghost function Verified(db: P.Db, t: P.Triple, head: A.HeadResult): Option<P.AssetId> {
    if head.Found? then P.Reusable(db, t) else None
  }

  /** The tables after `create`; a storage error while looking for the object leaves them alone. */
  ghost function Created(db: P.Db, t: P.Triple, head: A.HeadResult): P.Db {
    match P.Reusable(db, t)
    case None => P.InsertDownloadStep(db, t, None)
    case Some(a) =>
      match head
      case StorageError => db
      case Found => P.InsertDownloadStep(db, t, Some(a))
      case Missing => P.InsertDownloadStep(P.WithoutAsset(db, a), t, None)
  }

  class DownloadsService {
    const db: W.Database

    constructor (db: W.Database)
      ensures this.db == db
    {
      this.db := db;
    }

    method InsertJob(t: P.Triple, asset: Option<P.AssetId>) returns (job: P.RowId)
      requires asset.Some? ==> asset.value in db.assets
      modifies db`downloads, db`nextRow
      ensures db.View() == P.InsertDownloadStep(old(db.View()), t, asset) && job == old(db.nextRow)
    {
      job := db.nextRow;
      var status := if asset.Some? then P.DCompleted else P.DQueued;
      db.downloads := db.downloads[job := P.DownloadRow(db.now, status, None, asset, t)];
      db.nextRow := db.nextRow + 1;
    }

    /** None is the storage error, thrown before anything was written. */
    method Create(t: P.Triple, head: A.HeadResult) returns (job: Option<P.RowId>)
      requires A.TableInv(db.View())
      modifies db
      ensures db.View() == Created(old(db.View()), t, head)
      ensures job.None? <==> head.StorageError? && P.Reusable(old(db.View()), t).Some?
      ensures job.Some? ==>
                && job.value == old(db.nextRow) && job.value in db.downloads
                && db.downloads[job.value].assetId == Verified(old(db.View()), t, head)
                && db.downloads[job.value].status == (if db.downloads[job.value].assetId.Some? then P.DCompleted else P.DQueued)
    {
      var reusableAsset := db.FindReusable(t);
      var verifiedReusableAsset := None;
      if reusableAsset.Some? {
        if head.StorageError? {
          return None;
        }
        if head.Found? {
          verifiedReusableAsset := reusableAsset;
        } else {
          db.DeleteAsset(reusableAsset.value);
        }
      }
      var inserted := InsertJob(t, verifiedReusableAsset);
      job := Some(inserted);
    }
  }

  /** The statements of an uninterrupted `create`, as events of the interleaved system. */
  ghost function Statements(db: P.Db, r: A.RequestId, t: P.Triple, head: A.HeadResult): seq<A.SystemEvent> {
    [A.Look(r, t)]
    + (if P.Reusable(db, t).Some? then [A.Head(r, head)] else [])
    + (if P.Reusable(db, t).Some? && head.Missing? then [A.Proceed(r)] else [])
    + (if P.Reusable(db, t).Some? && head.StorageError? then [] else [A.Proceed(r)])
  }

  /** So every invariant of the interleaved system holds of the code: it is one of its runs. */
  lemma CreateIsRun(timeout: nat, s: A.System, r: A.RequestId, t: P.Triple, head: A.HeadResult)
    requires r !in s.requests
    ensures A.SystemAfter(timeout, s, Statements(s.db, r, t, head))
            == A.System(Created(s.db, t, head), s.requests)
  {
    var es := Statements(s.db, r, t, head);
    var looked := A.LookStep(s, r, t);
    assert es[0] == A.Look(r, t) && A.SystemStep(timeout, s, es[0]) == looked;
    match P.Reusable(s.db, t)
    case None =>
      assert es[1..] == [A.Proceed(r)];
      OneMore(timeout, looked, A.Proceed(r));
      assert A.ProceedStep(looked, r).requests == s.requests;
    case Some(a) =>
      var headed := A.HeadStep(looked, r, head);
      assert A.SystemStep(timeout, looked, A.Head(r, head)) == headed;
      match head {
        case StorageError =>
          assert es[1..] == [A.Head(r, head)];
          OneMore(timeout, looked, A.Head(r, head));
          assert headed.requests == s.requests;
        case Found =>
          assert es[1..] == [A.Head(r, head), A.Proceed(r)];
          TwoMore(timeout, looked, A.Head(r, head), A.Proceed(r));
          assert A.ProceedStep(headed, r).requests == s.requests;
        case Missing =>
          assert es[1..] == [A.Head(r, head), A.Proceed(r), A.Proceed(r)];
          var dropped := A.ProceedStep(headed, r);
          assert es[1..][1..] == [A.Proceed(r), A.Proceed(r)];
          TwoMore(timeout, headed, A.Proceed(r), A.Proceed(r));
          assert A.ProceedStep(dropped, r).requests == s.requests;
      }
  }

  lemma OneMore(timeout: nat, s: A.System, e: A.SystemEvent)
    ensures A.SystemAfter(timeout, s, [e]) == A.SystemStep(timeout, s, e)
  {
    assert [e][1..] == [];
  }

  lemma TwoMore(timeout: nat, s: A.System, e: A.SystemEvent, f: A.SystemEvent)
    ensures A.SystemAfter(timeout, s, [e, f]) == A.SystemStep(timeout, A.SystemStep(timeout, s, e), f)
  {
    assert [e, f][1..] == [f];
    OneMore(timeout, A.SystemStep(timeout, s, e), f);
  }
}
