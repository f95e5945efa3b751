/**
 When exactly two workers can process at once. A restore that takes a live worker's row does no
 harm yet: the row is only queued again. But from there a run whose later restores are all safe
 leads to two owners of that row; and without such a restore no run does.
 */
module WorkerExclusion {
  import opened Common
  import opened WorkerProtocol
  import opened WorkerMutex
  import R = WorkerRecovery

  /** At most one row is active, and no row has two live owners. */
  ghost predicate Exclusive(db: Db) {
    OneActive(db) && forall v, w, r :: Owns(db, v, r) && Owns(db, w, r) ==> v == w
  }

  /** No restore of the run takes a row a live worker is processing. */
  ghost predicate SafeRun(timeout: nat, db: Db, es: seq<Event>)
    decreases |es|
  {
    es == [] || (SafeStep(db, es[0]) && SafeRun(timeout, Step(timeout, db, es[0]), es[1..]))
  }

  lemma {:induction false} SafeRunKeeps(timeout: nat, db: Db, es: seq<Event>)
    requires MutexInv(timeout, db) && SafeRun(timeout, db, es)
    ensures MutexInv(timeout, After(timeout, db, es))
    decreases |es|
  {
    if es != [] {
      StepKeeps(timeout, db, es[0]);
      SafeRunKeeps(timeout, Step(timeout, db, es[0]), es[1..]);
    }
  }

  lemma {:induction false} SafeRunConcat(timeout: nat, db: Db, a: seq<Event>, b: seq<Event>)
    requires SafeRun(timeout, db, a) && SafeRun(timeout, After(timeout, db, a), b)
    ensures SafeRun(timeout, db, a + b)
    decreases |a|
  {
    if a == [] {
      assert a + b == b;
    } else {
      SafeRunConcat(timeout, Step(timeout, db, a[0]), a[1..], b);
      assert (a + b)[1..] == a[1..] + b;
    }
  }

  // ---- a queued row with a live owner ----

  /** Row `r` waits although `v` is processing it; `w` is about to claim, and nothing is active. */
  ghost predicate Handed(db: Db, v: WorkerId, w: WorkerId, r: RowRef) {
    && v != w && w in db.workers && db.workers[w] == Claim(0)
    && Owns(db, v, r) && Waiting(db, r) && StartedAt(db, r).None?
    && (forall s :: !Active(db, s))
    && (forall u, s :: Owns(db, u, s) && Exists(db, s) ==> u == v && s == r)
  }

  /** Nothing that is owned can be taken by a restore: it carries no claim time. */
  lemma HandedIsSafe(db: Db, v: WorkerId, r: RowRef, e: Event)
    requires forall u, s :: Owns(db, u, s) && Exists(db, s) ==> s == r
    requires Exists(db, r) ==> StartedAt(db, r).None?
    ensures SafeStep(db, e)
  {
    forall u, id | Owns(db, u, Download(id)) && id in db.downloads ensures db.downloads[id].startedAt.None? {
      assert Exists(db, Download(id));
    }
    forall u, id | Owns(db, u, Subtitle(id)) && id in db.subtitles ensures db.subtitles[id].startedAt.None? {
      assert Exists(db, Subtitle(id));
    }
  }

  /** With nothing active, a restore changes no row. */
  lemma IdleRestore(db: Db, cutoff: int)
    requires forall s :: !Active(db, s)
    ensures RestoreDownloadTable(db, cutoff) == db && RestoreSubtitleTable(db, cutoff) == db
  {
    forall id | id in db.downloads ensures RestoredDownload(db.downloads[id], cutoff) == db.downloads[id] {
      assert !Active(db, Download(id));
    }
    forall id | id in db.subtitles ensures RestoredSubtitle(db.subtitles[id], cutoff) == db.subtitles[id] {
      assert !Active(db, Subtitle(id));
    }
    assert RestoreDownloadTable(db, cutoff).downloads == db.downloads;
    assert RestoreSubtitleTable(db, cutoff).subtitles == db.subtitles;
  }

  // ---- one lap of the claiming worker over another row ----

  /** The row as it is after a claim at this time and a failure. */
  function Discarded(db: Db, c: RowRef): Db
    requires Exists(db, c)
  {
    match c
    case Download(id) =>
      db.(downloads := db.downloads[id := db.downloads[id].(status := DFailed, startedAt := Some(db.now))])
    case Subtitle(id) =>
      db.(subtitles := db.subtitles[id := db.subtitles[id].(status := SFailed, startedAt := Some(db.now))])
  }

  function Lap(w: WorkerId): seq<Event> {
    OnRow(w) + ToClaim(w)
  }

  function Taken(db: Db, w: WorkerId, c: RowRef): Db
    requires Exists(db, c)
  {
    match c case Download(id) => TakeDownload(db, w, id) case Subtitle(id) => TakeSubtitle(db, w, id)
  }

  function CatchOf(c: RowRef): Phase {
    match c case Download(id) => Fail(id) case Subtitle(id) => FailSubtitle(id)
  }

  /** The row's own statements: it is claimed, a statement fails, and the catch block marks it. */
  lemma FailedDownload(timeout: nat, db: Db, w: WorkerId, id: RowId)
    requires w in db.workers && id in db.downloads
    ensures var d2 := Goto(TakeDownload(db, w, id), w, Fail(id));
            && Step(timeout, TakeDownload(db, w, id), StatementFails(w)) == d2
            && Step(timeout, d2, Work(w, true, 0, "")) == Goto(Discarded(db, Download(id)), w, Top)
  {
    var d2 := Goto(TakeDownload(db, w, id), w, Fail(id));
    assert Step(timeout, d2, Work(w, true, 0, "")) == FailStep(d2, w, id);
    assert FailStep(d2, w, id).downloads == Discarded(db, Download(id)).downloads;
    assert FailStep(d2, w, id).workers == db.workers[w := Top];
  }

  lemma FailedSubtitle(timeout: nat, db: Db, w: WorkerId, id: RowId)
    requires w in db.workers && id in db.subtitles
    ensures var d2 := Goto(TakeSubtitle(db, w, id), w, FailSubtitle(id));
            && Step(timeout, TakeSubtitle(db, w, id), StatementFails(w)) == d2
            && Step(timeout, d2, Work(w, true, 0, "")) == Goto(Discarded(db, Subtitle(id)), w, Top)
  {
    var d2 := Goto(TakeSubtitle(db, w, id), w, FailSubtitle(id));
    assert Step(timeout, d2, Work(w, true, 0, "")) == FailSubtitleStep(d2, w, id);
    assert FailSubtitleStep(d2, w, id).subtitles == Discarded(db, Subtitle(id)).subtitles;
    assert FailSubtitleStep(d2, w, id).workers == db.workers[w := Top];
  }

  lemma LapOnRow(timeout: nat, db: Db, w: WorkerId, c: RowRef)
    requires w in db.workers && db.workers[w] == Claim(0) && !AnyActive(db) && NextJob(db) == Some(c) && Exists(db, c)
    ensures var d1 := Step(timeout, db, TryClaim(w));
            var d2 := Step(timeout, d1, StatementFails(w));
            && d1 == Taken(db, w, c) && d2 == Goto(d1, w, CatchOf(c))
            && Step(timeout, d2, Work(w, true, 0, "")) == Goto(Discarded(db, c), w, Top)
            && SafeStep(db, TryClaim(w)) && SafeStep(d1, StatementFails(w)) && SafeStep(d2, Work(w, true, 0, ""))
  {
    assert Step(timeout, db, TryClaim(w)) == ClaimStep(db, w) == Taken(db, w, c);
    match c
    case Download(id) => FailedDownload(timeout, db, w, id);
    case Subtitle(id) => FailedSubtitle(timeout, db, w, id);
  }

  /** The rest of the lap: back to the claim, through a restore that finds nothing. */
  lemma LapToClaim(timeout: nat, db: Db, w: WorkerId)
    requires w in db.workers && db.workers[w] == Top && forall s :: !Active(db, s)
    ensures var d1 := Step(timeout, db, BeginRestore(w));
            var d2 := Step(timeout, d1, Restore(w));
            && d1 == Goto(db, w, RestoreDownloads(db.now - timeout))
            && d2 == Goto(db, w, RestoreSubtitles(db.now - timeout))
            && Step(timeout, d2, Restore(w)) == Goto(db, w, Claim(0))
  {
    var cutoff := db.now - timeout;
    var d1 := Goto(db, w, RestoreDownloads(cutoff));
    var d2 := Goto(db, w, RestoreSubtitles(cutoff));
    assert forall s :: Active(d1, s) <==> Active(db, s);
    assert forall s :: Active(d2, s) <==> Active(db, s);
    IdleRestore(d1, cutoff);
    IdleRestore(d2, cutoff);
    assert Goto(d1, w, RestoreSubtitles(cutoff)) == d2;
  }

  lemma SafeThree(timeout: nat, db: Db, a: Event, b: Event, c: Event)
    requires var d1 := Step(timeout, db, a); var d2 := Step(timeout, d1, b);
             SafeStep(db, a) && SafeStep(d1, b) && SafeStep(d2, c)
    ensures SafeRun(timeout, db, [a, b, c])
    ensures After(timeout, db, [a, b, c]) == Step(timeout, Step(timeout, Step(timeout, db, a), b), c)
  {
    var d1 := Step(timeout, db, a);
    var d2 := Step(timeout, d1, b);
    R.RunThree(timeout, db, d1, d2, a, b, c);
    assert [a, b, c][1..] == [b, c] && [b, c][1..] == [c] && [c][1..] == [];
    assert SafeRun(timeout, Step(timeout, d2, c), []);
    assert SafeRun(timeout, d2, [c]);
    assert SafeRun(timeout, d1, [b, c]);
  }

  /** A row that is discarded stops waiting, and no other row changes. */
  lemma DiscardShape(db: Db, c: RowRef)
    requires Waiting(db, c)
    ensures var db' := Discarded(db, c);
            && !Waiting(db', c) && !Active(db', c)
            && (forall s :: Exists(db', s) <==> Exists(db, s))
            && (forall s :: s != c ==> (Waiting(db', s) <==> Waiting(db, s)) && (Active(db', s) <==> Active(db, s)))
            && (forall s :: s != c && Exists(db, s) ==>
                  StartedAt(db', s) == StartedAt(db, s) && CreatedAt(db', s) == CreatedAt(db, s))
  {
  }

  lemma DiscardKeepsHanded(db: Db, v: WorkerId, w: WorkerId, r: RowRef, c: RowRef)
    requires Handed(db, v, w, r) && Waiting(db, c) && c != r
    ensures Handed(Discarded(db, c), v, w, r)
  {
    DiscardShape(db, c);
    assert forall u, s :: Owns(Discarded(db, c), u, s) <==> Owns(db, u, s);
  }

  lemma DiscardLowers(db: Db, c: RowRef)
    requires Waiting(db, c)
    ensures |QueuedDownloads(Discarded(db, c))| + |QueuedSubtitles(Discarded(db, c))|
            < |QueuedDownloads(db)| + |QueuedSubtitles(db)|
  {
    DiscardShape(db, c);
    R.QueuesAfterTake(db, Discarded(db, c), c);
    R.QueuedMembers(db, R.CandidateOf(db, c));
  }

  function OnRow(w: WorkerId): seq<Event> {
    [TryClaim(w), StatementFails(w), Work(w, true, 0, "")]
  }

  function ToClaim(w: WorkerId): seq<Event> {
    [BeginRestore(w), Restore(w), Restore(w)]
  }

  lemma FirstHalf(timeout: nat, db: Db, w: WorkerId, c: RowRef)
    requires w in db.workers && db.workers[w] == Claim(0) && !AnyActive(db) && NextJob(db) == Some(c) && Exists(db, c)
    ensures SafeRun(timeout, db, OnRow(w)) && After(timeout, db, OnRow(w)) == Goto(Discarded(db, c), w, Top)
  {
    LapOnRow(timeout, db, w, c);
    SafeThree(timeout, db, TryClaim(w), StatementFails(w), Work(w, true, 0, ""));
  }

  lemma SecondHalf(timeout: nat, db: Db, v: WorkerId, w: WorkerId, r: RowRef)
    requires w in db.workers && db.workers[w] == Top && (forall s :: !Active(db, s))
    requires Exists(db, r) && StartedAt(db, r).None?
    requires forall u, s :: Owns(db, u, s) && Exists(db, s) ==> s == r
    ensures SafeRun(timeout, db, ToClaim(w)) && After(timeout, db, ToClaim(w)) == Goto(db, w, Claim(0))
  {
    LapToClaim(timeout, db, w);
    LapRestoresSafe(timeout, db, v, w, r);
    SafeThree(timeout, db, BeginRestore(w), Restore(w), Restore(w));
  }

  /** A lap over a row other than the handed one discards it and comes back to the claim. */
  lemma LapDiscards(timeout: nat, db: Db, v: WorkerId, w: WorkerId, r: RowRef, c: RowRef)
    requires Handed(db, v, w, r) && NextJob(db) == Some(c) && Waiting(db, c) && c != r
    ensures SafeRun(timeout, db, Lap(w)) && After(timeout, db, Lap(w)) == Discarded(db, c)
  {
    assert !AnyActive(db);
    FirstHalf(timeout, db, w, c);
    DiscardKeepsHanded(db, v, w, r, c);
    var middle := Goto(Discarded(db, c), w, Top);
    SameRows(Discarded(db, c), w, Top);
    SecondHalf(timeout, middle, v, w, r);
    R.AfterConcat(timeout, db, OnRow(w), ToClaim(w));
    SafeRunConcat(timeout, db, OnRow(w), ToClaim(w));
    assert Goto(middle, w, Claim(0)).workers == db.workers;
  }

  /** Moving a worker to a phase without a row changes no row and adds no owner. */
  lemma SameRows(db: Db, w: WorkerId, p: Phase)
    requires w in db.workers && Owned(p).None?
    ensures var db' := Goto(db, w, p);
            && (forall s :: Active(db', s) <==> Active(db, s))
            && (forall u, s :: Owns(db', u, s) ==> Owns(db, u, s))
  {
  }

  lemma LapRestoresSafe(timeout: nat, db: Db, v: WorkerId, w: WorkerId, r: RowRef)
    requires w in db.workers && db.workers[w] == Top && (forall s :: !Active(db, s))
    requires Exists(db, r) && StartedAt(db, r).None?
    requires forall u, s :: Owns(db, u, s) && Exists(db, s) ==> s == r
    ensures var d1 := Step(timeout, db, BeginRestore(w));
            var d2 := Step(timeout, d1, Restore(w));
            SafeStep(db, BeginRestore(w)) && SafeStep(d1, Restore(w)) && SafeStep(d2, Restore(w))
  {
    LapToClaim(timeout, db, w);
    var d1 := Step(timeout, db, BeginRestore(w));
    var d2 := Step(timeout, d1, Restore(w));
    assert forall u, s :: Owns(d1, u, s) ==> Owns(db, u, s);
    assert forall u, s :: Owns(d2, u, s) ==> Owns(db, u, s);
    HandedIsSafe(d1, v, r, Restore(w));
    HandedIsSafe(d2, v, r, Restore(w));
  }

  /** From a handed row, laps over the older rows lead to a claim of it: then it has two live owners. */
  lemma {:induction false} HandedBreaks(timeout: nat, db: Db, v: WorkerId, w: WorkerId, r: RowRef) returns (es: seq<Event>)
    requires Handed(db, v, w, r)
    ensures SafeRun(timeout, db, es) && !Exclusive(After(timeout, db, es))
    decreases |QueuedDownloads(db)| + |QueuedSubtitles(db)|
  {
    R.NextJobIsOldest(db);
    var c := NextJob(db).value;
    assert !AnyActive(db);
    if c == r {
      es := [TryClaim(w)];
      assert es[1..] == [];
      R.ClaimIsActive(db, w);
      var db' := ClaimStep(db, w);
      assert Step(timeout, db, TryClaim(w)) == db' && After(timeout, db', []) == db';
      assert After(timeout, db, es) == db';
      assert Owns(db', w, r) && Owns(db', v, r);
    } else {
      LapDiscards(timeout, db, v, w, r, c);
      DiscardKeepsHanded(db, v, w, r, c);
      DiscardLowers(db, c);
      var rest := HandedBreaks(timeout, Discarded(db, c), v, w, r);
      es := Lap(w) + rest;
      R.AfterConcat(timeout, db, Lap(w), rest);
      SafeRunConcat(timeout, db, Lap(w), rest);
    }
  }

  // ---- the unsafe restore ----

  /** The row an unsafe restore takes: it was the only active one, and `v` goes on processing it. */
  ghost predicate TakenFrom(db: Db, w: WorkerId, v: WorkerId, r: RowRef, cutoff: int) {
    && w in db.workers && Owns(db, v, r) && Active(db, r) && Stale(StartedAt(db, r), cutoff) && v != w
    && (if r.Download? then db.workers[w] == RestoreDownloads(cutoff) else db.workers[w] == RestoreSubtitles(cutoff))
  }

  lemma FindTaken(timeout: nat, db: Db, w: WorkerId) returns (v: WorkerId, r: RowRef, cutoff: int)
    requires MutexInv(timeout, db) && w in db.workers && !LiveRowsSpared(db, w)
    ensures TakenFrom(db, w, v, r, cutoff)
  {
    cutoff := Cutoff(db.workers[w]).value;
    if db.workers[w].RestoreDownloads? {
      var u, id :| Owns(db, u, Download(id)) && id in db.downloads && Stale(db.downloads[id].startedAt, cutoff);
      v, r := u, Download(id);
    } else {
      var u, id :| Owns(db, u, Subtitle(id)) && id in db.subtitles && Stale(db.subtitles[id].startedAt, cutoff);
      v, r := u, Subtitle(id);
    }
    assert Exists(db, r);
  }

  /** Right after the restore of that table, nothing is active and the row waits under its owner. */
  lemma RestoredRow(timeout: nat, db: Db, w: WorkerId, v: WorkerId, r: RowRef, cutoff: int)
    requires MutexInv(timeout, db) && w in db.workers && TakenFrom(db, w, v, r, cutoff)
    ensures var db' := Step(timeout, db, Restore(w));
            && (forall s :: !Active(db', s)) && Waiting(db', r) && StartedAt(db', r).None? && Owns(db', v, r)
            && (forall u, s :: Owns(db', u, s) && Exists(db', s) ==> u == v && s == r)
            && w in db'.workers && db'.workers[w] == if r.Download? then RestoreSubtitles(cutoff) else Claim(0)
  {
    var db' := Step(timeout, db, Restore(w));
    RestoreShape(db, cutoff);
    assert forall s :: Active(db, s) ==> s == r;
    assert forall u, s :: Owns(db', u, s) ==> Owns(db, u, s);
    assert forall s :: Exists(db', s) ==> Exists(db, s);
  }

  /** An unsafe restore can always be followed, without another one, by two workers on one row. */
  lemma UnsafeRestoreBreaks(timeout: nat, db: Db, w: WorkerId) returns (es: seq<Event>)
    requires MutexInv(timeout, db) && w in db.workers && !LiveRowsSpared(db, w)
    ensures var db' := Step(timeout, db, Restore(w));
            SafeRun(timeout, db', es) && !Exclusive(After(timeout, db', es))
  {
    var v, r, cutoff := FindTaken(timeout, db, w);
    RestoredRow(timeout, db, w, v, r, cutoff);
    var db1 := Step(timeout, db, Restore(w));
    if r.Subtitle? {
      es := HandedBreaks(timeout, db1, v, w, r);
    } else {
      var db2 := Step(timeout, db1, Restore(w));
      IdleRestore(db1, cutoff);
      assert db2 == Goto(db1, w, Claim(0));
      assert forall s :: Active(db2, s) <==> Active(db1, s);
      assert forall u, s :: Owns(db2, u, s) ==> Owns(db1, u, s);
      HandedIsSafe(db1, v, r, Restore(w));
      var rest := HandedBreaks(timeout, db2, v, w, r);
      es := [Restore(w)] + rest;
      assert es[1..] == rest;
    }
  }

  /**
   The exact condition: a restore spares the rows of live workers if and only if every continuation
   whose own restores do is exclusive throughout.
   */
  lemma RestoreExclusiveIff(timeout: nat, db: Db, w: WorkerId)
    requires MutexInv(timeout, db) && w in db.workers && Cutoff(db.workers[w]).Some?
    ensures LiveRowsSpared(db, w) <==>
            forall es :: SafeRun(timeout, Step(timeout, db, Restore(w)), es) ==>
                           Exclusive(After(timeout, Step(timeout, db, Restore(w)), es))
  {
    var db' := Step(timeout, db, Restore(w));
    if LiveRowsSpared(db, w) {
      RestoreTableKeeps(timeout, db, w);
      forall es | SafeRun(timeout, db', es) ensures Exclusive(After(timeout, db', es)) {
        SafeRunKeeps(timeout, db', es);
      }
    } else {
      var es := UnsafeRestoreBreaks(timeout, db, w);
    }
  }

  /** Any number of workers: a run none of whose restores takes a live row never breaks exclusion. */
  lemma SafeRunsAreExclusive(timeout: nat, db: Db, es: seq<Event>)
    requires Fresh(db) && SafeRun(timeout, db, es)
    ensures Exclusive(After(timeout, db, es))
  {
    FreshInv(timeout, db);
    SafeRunKeeps(timeout, db, es);
  }

  /** For every timeout and expiry two workers can end up processing the same row. */
  lemma TwoOwnersReached(timeout: nat, x: int)
    ensures exists es ::
              var db := After(timeout, R.TWO_WORKERS, es);
              && Owns(db, 0, Subtitle(0)) && Owns(db, 1, Subtitle(0))
              && 0 in db.subtitles && db.subtitles[0].expiresAt == x
  {
    R.SceneTaken(timeout, x);
    var a := R.Scene(R.Fresh0(x), ExtractAudio(0), Claim(0), timeout + 1);
    R.ReachesStep(timeout, R.TWO_WORKERS, a, TryClaim(1));
    R.NextJobIsOldest(a);
    assert Waiting(a, Subtitle(0));
    assert NextJob(a) == Some(Subtitle(0));
    assert Step(timeout, a, TryClaim(1)) == TakeSubtitle(a, 1, 0);
    var db := TakeSubtitle(a, 1, 0);
    assert Owns(db, 0, Subtitle(0)) && Owns(db, 1, Subtitle(0));
  }
}
