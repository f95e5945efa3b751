/**
 The queue over runs and in clock time: rows carry the time they were inserted, so the one inserted
 first is claimed first; and a claim carries the time it was made, so for the timeout it is safe.
 */
module WorkerFairness {
  import opened Common
  import opened WorkerProtocol
  import opened WorkerMutex
  import opened WorkerRecovery

  // ---- insertion order ----

  /** Row numbers are used up in order, and no row is from the future. */
  ghost predicate AgesInv(db: Db) {
    forall r :: Exists(db, r) ==> r.id < db.nextRow && CreatedAt(db, r) <= db.now
  }

  /** `db'` comes after `db`: the rows of `db` keep their creation times, and all others are younger. */
  ghost predicate Later(db: Db, db': Db) {
    && db.now <= db'.now && db.nextRow <= db'.nextRow
    && forall r :: Exists(db', r) ==>
         if Exists(db, r) then CreatedAt(db', r) == CreatedAt(db, r)
         else r.id >= db.nextRow && CreatedAt(db', r) >= db.now
  }

  /** No row appears and none changes its creation time. */
  ghost predicate SamePlaces(db: Db, db': Db) {
    && db'.now == db.now && db'.nextRow == db.nextRow
    && forall r :: Exists(db', r) ==> Exists(db, r) && CreatedAt(db', r) == CreatedAt(db, r)
  }

  lemma ClaimKeepsPlaces(db: Db, w: WorkerId)
    ensures SamePlaces(db, ClaimStep(db, w))
  {
  }

  lemma DownloadWorkKeepsPlaces(db: Db, w: WorkerId, ok: bool, expiresAt: int, resultKey: string)
    requires w in db.workers && Owned(db.workers[w]).Some? && Owned(db.workers[w]).value.Download?
    ensures SamePlaces(db, WorkStep(db, w, ok, expiresAt, resultKey))
  {
  }

  lemma SubtitleWorkKeepsPlaces(db: Db, w: WorkerId, ok: bool, expiresAt: int, resultKey: string)
    requires w in db.workers && !(Owned(db.workers[w]).Some? && Owned(db.workers[w]).value.Download?)
    ensures SamePlaces(db, WorkStep(db, w, ok, expiresAt, resultKey))
  {
  }

  lemma RestoreKeepsPlaces(db: Db, cutoff: int)
    ensures SamePlaces(db, RestoreDownloadTable(db, cutoff)) && SamePlaces(db, RestoreSubtitleTable(db, cutoff))
  {
  }

  predicate Inserts(e: Event) {
    e.InsertDownload? || e.InsertSubtitle?
  }

  lemma OtherStepKeepsPlaces(timeout: nat, db: Db, e: Event)
    requires !Inserts(e) && !e.Tick?
    ensures SamePlaces(db, Step(timeout, db, e))
  {
    if e.Work? && e.w in db.workers {
      if Owned(db.workers[e.w]).Some? && Owned(db.workers[e.w]).value.Download? {
        DownloadWorkKeepsPlaces(db, e.w, e.ok, e.expiresAt, e.resultKey);
      } else {
        SubtitleWorkKeepsPlaces(db, e.w, e.ok, e.expiresAt, e.resultKey);
      }
    } else if e.TryClaim? {
      ClaimKeepsPlaces(db, e.w);
    } else if e.Restore? && e.w in db.workers && Cutoff(db.workers[e.w]).Some? {
      RestoreKeepsPlaces(db, Cutoff(db.workers[e.w]).value);
    }
  }

  /** The row an insert adds. */
  function NewRow(db: Db, e: Event): RowRef
    requires Inserts(e)
  {
    if e.InsertDownload? then Download(db.nextRow) else Subtitle(db.nextRow)
  }

  /** An insert writes the time of now and nothing else that matters to the queue; a completed job is not queued. */
  lemma InsertWrites(timeout: nat, db: Db, e: Event)
    requires Inserts(e) && (e.InsertDownload? && e.asset.Some? ==> e.asset.value in db.assets)
    ensures var db' := Step(timeout, db, e);
            var n := NewRow(db, e);
            && Exists(db', n) && CreatedAt(db', n) == db.now && StartedAt(db', n).None? && db'.nextRow == db.nextRow + 1
            && (Waiting(db', n) <==> !(e.InsertDownload? && e.asset.Some?))
            && (e.InsertDownload? ==>
                  && db'.downloads[n.id].triple == e.triple && db'.downloads[n.id].assetId == e.asset
                  && (db'.downloads[n.id].status.DCompleted? <==> e.asset.Some?))
            && (e.InsertSubtitle? ==>
                  && db'.subtitles[n.id].sourceKey == e.sourceKey && db'.subtitles[n.id].expiresAt == e.expiresAt
                  && db'.subtitles[n.id].resultKey.None?)
            && (forall r :: r != n ==> (Exists(db', r) <==> Exists(db, r)))
            && (forall r :: r != n && Exists(db, r) ==> CreatedAt(db', r) == CreatedAt(db, r))
  {
  }

  lemma StepIsLater(timeout: nat, db: Db, e: Event)
    requires AgesInv(db)
    ensures AgesInv(Step(timeout, db, e)) && Later(db, Step(timeout, db, e))
  {
    if Inserts(e) {
      if e.InsertDownload? && e.asset.Some? && e.asset.value !in db.assets {
        assert Step(timeout, db, e) == db;
      } else {
        InsertWrites(timeout, db, e);
        var db' := Step(timeout, db, e);
        assert db'.now == db.now;
        assert forall r :: Exists(db', r) && r != NewRow(db, e) ==> Exists(db, r);
      }
    } else if !e.Tick? {
      OtherStepKeepsPlaces(timeout, db, e);
    }
  }

  lemma LaterChain(a: Db, b: Db, c: Db)
    requires AgesInv(a) && Later(a, b) && Later(b, c)
    ensures Later(a, c)
  {
  }

  lemma {:induction false} AfterIsLater(timeout: nat, db: Db, es: seq<Event>)
    requires AgesInv(db)
    ensures AgesInv(After(timeout, db, es)) && Later(db, After(timeout, db, es))
    decreases |es|
  {
    if es != [] {
      var next := Step(timeout, db, es[0]);
      StepIsLater(timeout, db, es[0]);
      AfterIsLater(timeout, next, es[1..]);
      LaterChain(db, next, After(timeout, next, es[1..]));
    }
  }

  /**
   First in, first claimed, across both tables: if row `r` was there when row `s` was not yet, then
   whenever both wait, the order puts `r` first and a claim never takes `s`.
   */
  lemma FirstInFirstClaimed(timeout: nat, start: Db, before: seq<Event>, after: seq<Event>, r: RowRef, s: RowRef)
    requires Fresh(start)
    requires var early := After(timeout, start, before);
             Exists(early, r) && !Exists(early, s)
    requires var late := After(timeout, After(timeout, start, before), after);
             Waiting(late, r) && Waiting(late, s)
    ensures var late := After(timeout, After(timeout, start, before), after);
            && Before(CandidateOf(late, r), CandidateOf(late, s)) && !Before(CandidateOf(late, s), CandidateOf(late, r))
            && NextJob(late) != Some(s)
  {
    var early := After(timeout, start, before);
    AfterIsLater(timeout, start, before);
    AfterIsLater(timeout, early, after);
    NextJobIsOldest(After(timeout, early, after));
  }

  /** Of two inserts the earlier one's row comes first, however close they are. */
  lemma InsertsAreOrdered(timeout: nat, start: Db, es: seq<Event>, e: Event, r: RowRef)
    requires Fresh(start) && Inserts(e) && Exists(After(timeout, start, es), r)
    requires e.InsertDownload? && e.asset.Some? ==> e.asset.value in After(timeout, start, es).assets
    ensures var db := After(timeout, start, es);
            var db' := Step(timeout, db, e);
            && Exists(db', NewRow(db, e)) && Exists(db', r)
            && Before(CandidateOf(db', r), CandidateOf(db', NewRow(db, e)))
  {
    AfterIsLater(timeout, start, es);
    InsertWrites(timeout, After(timeout, start, es), e);
  }

  // ---- claims and the timeout ----

  /** A claim marks its row and stamps it with the time of now. */
  lemma ClaimStamps(db: Db, w: WorkerId)
    requires w in db.workers && !AnyActive(db) && NextJob(db).Some?
    ensures var db' := ClaimStep(db, w);
            var r := NextJob(db).value;
            Exists(db', r) && Active(db', r) && StartedAt(db', r) == Some(db.now) && Owns(db', w, r) && db'.now == db.now
  {
    NextJobIsOldest(db);
  }

  /** `w` holds row `r`, claimed at time `t`. */
  ghost predicate Holds(db: Db, w: WorkerId, r: RowRef, t: int) {
    Exists(db, r) && Active(db, r) && StartedAt(db, r) == Some(t) && Owns(db, w, r)
  }

  /** An event of another process, other than the deletion of the row. */
  predicate Foreign(e: Event, w: WorkerId, r: RowRef) {
    match e
    case BeginRestore(v) => v != w
    case Restore(v) => v != w
    case Conflict(v) => v != w
    case TryClaim(v) => v != w
    case Work(v, _, _, _) => v != w
    case StatementFails(v) => v != w
    case Crash(v) => v != w
    case DeleteSubtitle(id) => r != Subtitle(id)
    case _ => true
  }

  lemma RestoreSparesHolder(timeout: nat, db: Db, v: WorkerId, w: WorkerId, r: RowRef, t: int)
    requires Holds(db, w, r, t) && v != w && v in db.workers && CutoffsPast(timeout, db) && db.now <= t + timeout
    ensures Holds(Step(timeout, db, Restore(v)), w, r, t)
  {
  }

  lemma WorkSparesHolder(timeout: nat, db: Db, e: Event, w: WorkerId, r: RowRef, t: int)
    requires MutexInv(timeout, db) && Holds(db, w, r, t) && e.Work? && e.w != w && e.w in db.workers
    ensures Holds(Step(timeout, db, e), w, r, t)
  {
    assert Owned(db.workers[e.w]).Some? ==> Owns(db, e.w, Owned(db.workers[e.w]).value);
    assert Owned(db.workers[e.w]) != Some(r);
  }

  lemma ForeignStep(timeout: nat, db: Db, e: Event, w: WorkerId, r: RowRef, t: int)
    requires MutexInv(timeout, db) && Holds(db, w, r, t) && Foreign(e, w, r) && db.now <= t + timeout
    ensures Holds(Step(timeout, db, e), w, r, t)
  {
    if e.Restore? && e.w in db.workers {
      RestoreSparesHolder(timeout, db, e.w, w, r, t);
    } else if e.Work? && e.w in db.workers {
      WorkSparesHolder(timeout, db, e, w, r, t);
    } else if e.TryClaim? && e.w in db.workers {
      assert AnyActive(db) by {
        match r
        case Download(id) => assert Active(db, Download(id));
        case Subtitle(id) => assert Active(db, Subtitle(id));
      }
    }
  }

  /** While `w` holds the one active row within its timeout, no step of another process is an unsafe restore. */
  lemma HolderMakesSafe(timeout: nat, db: Db, e: Event, w: WorkerId, r: RowRef, t: int)
    requires MutexInv(timeout, db) && Holds(db, w, r, t) && Foreign(e, w, r) && db.now <= t + timeout
    ensures SafeStep(db, e)
  {
    if e.Restore? && e.w in db.workers {
      forall v, id | Owns(db, v, Download(id)) && id in db.downloads ensures Download(id) == r {
        assert Active(db, Download(id));
      }
      forall v, id | Owns(db, v, Subtitle(id)) && id in db.subtitles ensures Subtitle(id) == r {
        assert Active(db, Subtitle(id));
      }
    }
  }

  lemma NowGrows(timeout: nat, db: Db, e: Event)
    ensures db.now <= Step(timeout, db, e).now
  {
    if !Inserts(e) && !e.Tick? { OtherStepKeepsPlaces(timeout, db, e); }
  }

  lemma {:induction false} NowGrowsAfter(timeout: nat, db: Db, es: seq<Event>)
    ensures db.now <= After(timeout, db, es).now
    decreases |es|
  {
    if es != [] {
      NowGrows(timeout, db, es[0]);
      NowGrowsAfter(timeout, Step(timeout, db, es[0]), es[1..]);
    }
  }

  /**
   A claim is safe for its timeout: whatever other workers, requests and crashes of others do, until
   `timeout` has passed since the claim the row stays active under its owner and its claim time.
   */
  lemma {:induction false} ClaimHoldsForTimeout(timeout: nat, db: Db, es: seq<Event>, w: WorkerId, r: RowRef, t: int)
    requires MutexInv(timeout, db) && Holds(db, w, r, t)
    requires forall i :: 0 <= i < |es| ==> Foreign(es[i], w, r)
    requires After(timeout, db, es).now <= t + timeout
    ensures Holds(After(timeout, db, es), w, r, t) && MutexInv(timeout, After(timeout, db, es))
    decreases |es|
  {
    if es != [] {
      NowGrowsAfter(timeout, db, es);
      ForeignStep(timeout, db, es[0], w, r, t);
      HolderMakesSafe(timeout, db, es[0], w, r, t);
      StepKeeps(timeout, db, es[0]);
      ClaimHoldsForTimeout(timeout, Step(timeout, db, es[0]), es[1..], w, r, t);
    }
  }

  /** And not longer: another worker's loop that begins at this moment takes the row back exactly if the timeout has passed. */
  lemma LoopTakesBackIff(timeout: nat, db: Db, v: WorkerId, w: WorkerId, r: RowRef, t: int)
    requires Holds(db, w, r, t) && v in db.workers && db.workers[v].Top?
    ensures var db' := RestoreBoth(timeout, db, v);
            && Exists(db', r)
            && (Waiting(db', r) <==> t + timeout < db.now)
            && (Active(db', r) <==> t + timeout >= db.now)
            && StartedAt(db', r) == if t + timeout < db.now then None else Some(t)
  {
    RestoreBothSteps(timeout, db, v);
  }

  function Conflicts(w: WorkerId, n: nat): seq<Event> {
    if n == 0 then [] else [Conflict(w)] + Conflicts(w, n - 1)
  }

  /** From its attempt `a` on, `n` conflicts in a row leave a worker at a later attempt, or after the third back at the top; no row changes. */
  lemma {:induction false} ConflictsGiveUpAfterThree(timeout: nat, db: Db, w: WorkerId, a: nat, n: nat)
    requires w in db.workers && db.workers[w] == Claim(a) && a < 3
    ensures After(timeout, db, Conflicts(w, n)) == db.(workers := db.workers[w := if a + n < 3 then Claim(a + n) else Top])
    decreases n
  {
    if n == 0 {
      assert db.workers[w := Claim(a)] == db.workers;
    } else {
      var next := Step(timeout, db, Conflict(w));
      assert Conflicts(w, n)[1..] == Conflicts(w, n - 1);
      if a + 1 < 3 {
        ConflictsGiveUpAfterThree(timeout, next, w, a + 1, n - 1);
        assert next.workers[w := Top] == db.workers[w := Top];
      } else {
        ConflictsAtTop(timeout, next, w, n - 1);
      }
    }
  }

  lemma {:induction false} ConflictsAtTop(timeout: nat, db: Db, w: WorkerId, n: nat)
    requires w in db.workers && db.workers[w].Top?
    ensures After(timeout, db, Conflicts(w, n)) == db
    decreases n
  {
    if n > 0 {
      assert Conflicts(w, n)[1..] == Conflicts(w, n - 1);
      ConflictsAtTop(timeout, db, w, n - 1);
    }
  }
}
