/**
 Fairness and recovery of the worker queue: claims follow one global order over
 both tables, a crashed worker's row comes back with its original place, and,
 when the lease is broken, a row can block both tables until its own expiry.
 */
module WorkerRecovery {
  import opened Common
  import opened WorkerProtocol
  import opened WorkerMutex
  import S = AssetCleanup

  // ---- one order over two tables ----

  function CandidateOf(db: Db, r: RowRef): Candidate
    requires Exists(db, r)
  {
    Candidate(CreatedAt(db, r), r.id)
  }

  /** Choosing between the two heads finds the oldest queued row of both tables together. */
  lemma NextJobIsOldest(db: Db)
    ensures NextJob(db).None? <==> forall r :: !Waiting(db, r)
    ensures NextJob(db).Some? ==>
              var r := NextJob(db).value;
              Waiting(db, r) && forall s :: Waiting(db, s) ==> Before(CandidateOf(db, r), CandidateOf(db, s))
  {
    var (ds, ss) := (QueuedDownloads(db), QueuedSubtitles(db));
    forall s | Waiting(db, s)
      ensures if s.Download? then CandidateOf(db, s) in ds else CandidateOf(db, s) in ss
    {
      match s
      case Download(id) => assert Candidate(db.downloads[id].createdAt, id) in ds;
      case Subtitle(id) => assert Candidate(db.subtitles[id].createdAt, id) in ss;
    }
    if NextJob(db).Some? {
      var r := NextJob(db).value;
      assert Waiting(db, r);
      assert r.Download? ==> FindFirst(ds) == Some(CandidateOf(db, r));
      assert r.Subtitle? ==> FindFirst(ss) == Some(CandidateOf(db, r));
    } else {
      assert ds == {} && ss == {};
    }
  }

  datatype Entry = Entry(ref: RowRef, key: Candidate)

  function Entries(ds: set<Candidate>, ss: set<Candidate>): set<Entry> {
    (set c | c in ds :: Entry(Download(c.id), c)) + (set c | c in ss :: Entry(Subtitle(c.id), c))
  }

  /** The order in which repeated claims serve two fixed queued sets. */
  ghost function ClaimOrder(ds: set<Candidate>, ss: set<Candidate>): seq<Entry>
    decreases |ds| + |ss|
  {
    match SelectNext(FindFirst(ds), FindFirst(ss))
    case None => []
    case Some(Download(_)) => var c := FindFirst(ds).value; [Entry(Download(c.id), c)] + ClaimOrder(ds - {c}, ss)
    case Some(Subtitle(_)) => var c := FindFirst(ss).value; [Entry(Subtitle(c.id), c)] + ClaimOrder(ds, ss - {c})
  }

  ghost predicate SortedEntries(s: seq<Entry>) {
    forall i, j :: 0 <= i < j < |s| ==> Before(s[i].key, s[j].key)
  }

  lemma EntriesRemove(ds: set<Candidate>, ss: set<Candidate>, e: Entry)
    requires e in Entries(ds, ss) && e.ref.id == e.key.id
    ensures e.ref.Download? ==> Entries(ds - {e.key}, ss) == Entries(ds, ss) - {e}
    ensures e.ref.Subtitle? ==> Entries(ds, ss - {e.key}) == Entries(ds, ss) - {e}
  {
  }

  /** All of both queues, each row once, by age. */
  ghost predicate SortedMerge(s: seq<Entry>, ds: set<Candidate>, ss: set<Candidate>) {
    SortedEntries(s) && Distinct(s) && forall e :: e in s <==> e in Entries(ds, ss)
  }

  /** Repeated claims produce the sorted merge of both queues: ordered, complete, and without repetition. */
  lemma {:induction false} ClaimOrderIsSortedMerge(ds: set<Candidate>, ss: set<Candidate>)
    ensures SortedMerge(ClaimOrder(ds, ss), ds, ss)
    decreases |ds| + |ss|
  {
    var next := SelectNext(FindFirst(ds), FindFirst(ss));
    if next.None? {
      assert Entries(ds, ss) == {};
    } else if next.value.Download? {
      var c := FindFirst(ds).value;
      var head := Entry(Download(c.id), c);
      ClaimOrderIsSortedMerge(ds - {c}, ss);
      EntriesRemove(ds, ss, head);
      PrependOldest(head, ClaimOrder(ds - {c}, ss), ds, ss, Entries(ds - {c}, ss));
    } else {
      var c := FindFirst(ss).value;
      var head := Entry(Subtitle(c.id), c);
      ClaimOrderIsSortedMerge(ds, ss - {c});
      EntriesRemove(ds, ss, head);
      PrependOldest(head, ClaimOrder(ds, ss - {c}), ds, ss, Entries(ds, ss - {c}));
    }
  }

  lemma PrependOldest(head: Entry, tail: seq<Entry>, ds: set<Candidate>, ss: set<Candidate>, rest: set<Entry>)
    requires SortedEntries(tail) && Distinct(tail) && head in Entries(ds, ss)
    requires forall e :: e in tail <==> e in rest
    requires rest == Entries(ds, ss) - {head}
    requires forall c :: c in ds || c in ss ==> Before(head.key, c)
    ensures SortedMerge([head] + tail, ds, ss)
  {
    forall i | 0 <= i < |tail| ensures Before(head.key, tail[i].key) && tail[i] != head {
      assert tail[i] in rest;
    }
  }

  lemma QueuedMembers(db: Db, c: Candidate)
    ensures c in QueuedDownloads(db) <==> Waiting(db, Download(c.id)) && CandidateOf(db, Download(c.id)) == c
    ensures c in QueuedSubtitles(db) <==> Waiting(db, Subtitle(c.id)) && CandidateOf(db, Subtitle(c.id)) == c
  {
  }

  /** One row stops waiting; every other row waits, or not, as before. */
  lemma QueuesAfterTake(db: Db, db': Db, r: RowRef)
    requires Waiting(db, r) && !Waiting(db', r)
    requires forall s :: s != r ==> (Waiting(db', s) <==> Waiting(db, s))
    requires forall s :: s != r && Waiting(db, s) ==> Exists(db', s) && CreatedAt(db', s) == CreatedAt(db, s)
    ensures QueuedDownloads(db') == QueuedDownloads(db) - (if r.Download? then {CandidateOf(db, r)} else {})
    ensures QueuedSubtitles(db') == QueuedSubtitles(db) - (if r.Subtitle? then {CandidateOf(db, r)} else {})
  {
    forall c
      ensures c in QueuedDownloads(db') <==>
              c in QueuedDownloads(db) - (if r.Download? then {CandidateOf(db, r)} else {})
      ensures c in QueuedSubtitles(db') <==>
              c in QueuedSubtitles(db) - (if r.Subtitle? then {CandidateOf(db, r)} else {})
    {
      QueuedMembers(db, c);
      QueuedMembers(db', c);
    }
  }

  /** A claim takes exactly the head of that order out of its queue, and leaves the other queue alone. */
  lemma ClaimTakesHead(db: Db, w: WorkerId)
    requires w in db.workers && !AnyActive(db) && NextJob(db).Some?
    ensures var db' := ClaimStep(db, w);
            var r := NextJob(db).value;
            && Exists(db, r) && Owns(db', w, r)
            && ClaimOrder(QueuedDownloads(db), QueuedSubtitles(db))
               == [Entry(r, CandidateOf(db, r))] + ClaimOrder(QueuedDownloads(db'), QueuedSubtitles(db'))
  {
    var (ds, ss) := (QueuedDownloads(db), QueuedSubtitles(db));
    var db' := ClaimStep(db, w);
    var r := NextJob(db).value;
    NextJobIsOldest(db);
    QueuesAfterTake(db, db', r);
    var c := if r.Download? then FindFirst(ds).value else FindFirst(ss).value;
    QueuedMembers(db, c);
    assert c == CandidateOf(db, r);
  }

  // ---- recovery ----

  /** Nobody is processing anything: the state right after the only worker, or every worker, crashed. */
  ghost predicate NobodyOwns(db: Db) {
    forall w :: w in db.workers ==> Owned(db.workers[w]).None?
  }

  ghost predicate AllStale(timeout: nat, db: Db) {
    forall r :: Active(db, r) ==> StartedAt(db, r).Some? && StartedAt(db, r).value + timeout < db.now
  }

  /** A worker's next loop: restore both tables, then be ready to claim. */
  ghost function RestoreBoth(timeout: nat, db: Db, w: WorkerId): Db {
    Step(timeout, Step(timeout, Step(timeout, db, BeginRestore(w)), Restore(w)), Restore(w))
  }

  function BothTables(db: Db, cutoff: int): Db {
    RestoreSubtitleTable(RestoreDownloadTable(db, cutoff), cutoff)
  }

  lemma RestoreBothSteps(timeout: nat, db: Db, w: WorkerId)
    requires w in db.workers && db.workers[w].Top?
    ensures RestoreBoth(timeout, db, w) == Goto(BothTables(db, db.now - timeout), w, Claim(0))
  {
    var cutoff := db.now - timeout;
    var db1 := Goto(db, w, RestoreDownloads(cutoff));
    assert Step(timeout, db, BeginRestore(w)) == db1;
    var db2 := Goto(RestoreDownloadTable(db1, cutoff), w, RestoreSubtitles(cutoff));
    assert Step(timeout, db1, Restore(w)) == db2;
  }

  /** Restoring re-queues every stale active row, with its original place in the order. */
  lemma RestoreRequeues(timeout: nat, db: Db)
    requires AllStale(timeout, db)
    ensures var db' := BothTables(db, db.now - timeout);
            && (forall r :: !Active(db', r))
            && (forall r :: Waiting(db', r) <==> Waiting(db, r) || Active(db, r))
            && (forall r :: Exists(db', r) <==> Exists(db, r))
            && (forall r :: Exists(db, r) ==> CreatedAt(db', r) == CreatedAt(db, r))
  {
    var cutoff := db.now - timeout;
    forall r ensures Active(db, r) ==> Stale(StartedAt(db, r), cutoff) {}
    forall r
      ensures var db' := BothTables(db, cutoff);
              && !Active(db', r) && (Waiting(db', r) <==> Waiting(db, r) || Active(db, r))
              && (Exists(db', r) <==> Exists(db, r)) && (Exists(db, r) ==> CreatedAt(db', r) == CreatedAt(db, r))
    {
      RestoreRequeuesOne(db, cutoff, r);
    }
  }

  lemma RestoreRequeuesOne(db: Db, cutoff: int, r: RowRef)
    requires Active(db, r) ==> Stale(StartedAt(db, r), cutoff)
    ensures var db' := BothTables(db, cutoff);
            && !Active(db', r) && (Waiting(db', r) <==> Waiting(db, r) || Active(db, r))
            && (Exists(db', r) <==> Exists(db, r)) && (Exists(db, r) ==> CreatedAt(db', r) == CreatedAt(db, r))
  {
  }

  /** Worker `w` is now processing `c`, a row that waited or was stuck before and is not younger than `r`. */
  ghost predicate Recovered(db: Db, db': Db, w: WorkerId, r: RowRef, c: RowRef) {
    && Owns(db', w, c) && Active(db', c)
    && Exists(db, c) && (Waiting(db, c) || Active(db, c))
    && Exists(db, r) && Before(CandidateOf(db, c), CandidateOf(db, r))
  }

  /** Once the timeout has passed after a crash, one loop of a worker claims the oldest of all rows that wait or were stuck. */
  lemma CrashNeverBlocks(timeout: nat, db: Db, w: WorkerId, r: RowRef)
    requires w in db.workers && db.workers[w].Top? && AllStale(timeout, db)
    requires Waiting(db, r) || Active(db, r)
    ensures exists c :: Recovered(db, Step(timeout, RestoreBoth(timeout, db, w), TryClaim(w)), w, r, c)
  {
    var tables := BothTables(db, db.now - timeout);
    var db1 := Goto(tables, w, Claim(0));
    RestoreBothSteps(timeout, db, w);
    RestoreRequeues(timeout, db);
    RequeuedView(db, tables, db1, r);
    NextJobIsOldest(db1);
    ClaimIsActive(db1, w);
    var c := NextJob(db1).value;
    RequeuedView(db, tables, db1, c);
    assert db1.workers[w] == Claim(0);
    assert Step(timeout, db1, TryClaim(w)) == ClaimStep(db1, w);
    assert Recovered(db, ClaimStep(db1, w), w, r, c);
  }

  lemma RequeuedView(db: Db, tables: Db, db1: Db, r: RowRef)
    requires tables.downloads == db1.downloads && tables.subtitles == db1.subtitles
    requires forall s :: !Active(tables, s)
    requires Waiting(tables, r) <==> Waiting(db, r) || Active(db, r)
    requires Exists(tables, r) <==> Exists(db, r)
    requires Exists(db, r) ==> CreatedAt(tables, r) == CreatedAt(db, r)
    ensures !AnyActive(db1) && (Waiting(db1, r) <==> Waiting(db, r) || Active(db, r))
    ensures Exists(db, r) ==> Exists(db1, r) && CandidateOf(db1, r) == CandidateOf(db, r)
  {
    assert forall s :: Active(db1, s) <==> Active(tables, s);
  }

  lemma ClaimIsActive(db: Db, w: WorkerId)
    requires w in db.workers && !AnyActive(db) && NextJob(db).Some?
    ensures Owns(ClaimStep(db, w), w, NextJob(db).value) && Active(ClaimStep(db, w), NextJob(db).value)
  {
    NextJobIsOldest(db);
  }

  /** The worker restarts, and time passes. */
  function Restarted(db: Db, v: WorkerId, later: int): Db {
    Goto(db, v, Top).(now := later)
  }

  lemma RestartedSteps(timeout: nat, db: Db, v: WorkerId, later: int)
    requires v in db.workers && later >= db.now
    ensures Step(timeout, Step(timeout, db, Crash(v)), Tick(later)) == Restarted(db, v, later)
    ensures forall s :: Active(Restarted(db, v, later), s) <==> Active(db, s)
    ensures forall s :: Waiting(Restarted(db, v, later), s) <==> Waiting(db, s)
    ensures forall s :: Active(db, s) ==> StartedAt(Restarted(db, v, later), s) == StartedAt(db, s)
  {
  }

  /** The single worker of the documented deployment always recovers: after any crash, at any time past the timeout. */
  lemma SingleWorkerRecovers(timeout: nat, start: Db, v: WorkerId, es: seq<Event>, later: int, r: RowRef)
    requires Fresh(start) && Solo(start, v)
    requires var db := After(timeout, start, es);
             (Waiting(db, r) || Active(db, r)) && later >= db.now &&
             forall s :: Active(db, s) && StartedAt(db, s).Some? ==> StartedAt(db, s).value + timeout < later
    ensures var db := Step(timeout, Step(timeout, After(timeout, start, es), Crash(v)), Tick(later));
            exists c :: Recovered(db, Step(timeout, RestoreBoth(timeout, db, v), TryClaim(v)), v, r, c)
  {
    var db0 := After(timeout, start, es);
    SingleWorkerExclusion(timeout, start, v, es);
    AfterKeepsWorkers(timeout, start, es);
    RestartedSteps(timeout, db0, v, later);
    CrashNeverBlocks(timeout, Restarted(db0, v, later), v, r);
  }

  /** Past the timeout, any worker at the top of its loop recovers what is active, whoever claimed it. */
  lemma StaleRowRecovered(timeout: nat, db: Db, w: WorkerId, r: RowRef)
    requires MutexInv(timeout, db) && w in db.workers && db.workers[w].Top? && (Waiting(db, r) || Active(db, r))
    requires forall s :: Active(db, s) && StartedAt(db, s).Some? ==> StartedAt(db, s).value + timeout < db.now
    ensures exists c :: Recovered(db, Step(timeout, RestoreBoth(timeout, db, w), TryClaim(w)), w, r, c)
  {
    CrashNeverBlocks(timeout, db, w, r);
  }

  /**
   Any number of workers: after any run in which every live owner stays within the timeout, any worker
   at the top of its loop recovers a row whose owner died, as soon as the row's own timeout has passed.
   */
  lemma LeasedWorkersRecover(timeout: nat, start: Db, es: seq<Event>, w: WorkerId, r: RowRef)
    requires MutexInv(timeout, start) && LeasedRun(timeout, start, es)
    requires var db := After(timeout, start, es);
             && w in db.workers && db.workers[w].Top? && (Waiting(db, r) || Active(db, r))
             && forall s :: Active(db, s) && StartedAt(db, s).Some? ==> StartedAt(db, s).value + timeout < db.now
    ensures var db := After(timeout, start, es);
            exists c :: Recovered(db, Step(timeout, RestoreBoth(timeout, db, w), TryClaim(w)), w, r, c)
  {
    LeasedWorkersExclusion(timeout, start, es);
    StaleRowRecovered(timeout, After(timeout, start, es), w, r);
  }

  lemma {:induction false} AfterKeepsWorkers(timeout: nat, db: Db, es: seq<Event>)
    ensures After(timeout, db, es).workers.Keys == db.workers.Keys
    decreases |es|
  {
    if es != [] {
      WorkersStay(timeout, db, es[0]);
      AfterKeepsWorkers(timeout, Step(timeout, db, es[0]), es[1..]);
    }
  }

  // ---- what goes wrong without the lease ----

  /** A subtitle row marked transcribing, without a claim time, that no worker is processing. */
  ghost predicate BlockedBy(db: Db, id: RowId) {
    && id in db.subtitles && db.subtitles[id].status.Transcribing? && db.subtitles[id].startedAt.None?
    && NobodyOwns(db)
  }

  lemma BlockedStays(timeout: nat, db: Db, id: RowId, e: Event)
    requires BlockedBy(db, id) && id < db.nextRow && e != DeleteSubtitle(id)
    ensures BlockedBy(Step(timeout, db, e), id) && id < Step(timeout, db, e).nextRow
  {
    match e
    case TryClaim(w) => assert Active(db, Subtitle(id));
    case Restore(w) => RestoreShape(db, 0);
    case Work(w, ok, expiresAt, resultKey) =>
      if w in db.workers { assert WorkStep(db, w, ok, expiresAt, resultKey) == db; }
    case _ =>
  }

  /** A row that is gone, under an id already used. */
  ghost predicate Gone(db: Db, id: RowId) {
    id !in db.subtitles && id < db.nextRow
  }

  lemma GoneAfterWork(db: Db, w: WorkerId, ok: bool, expiresAt: int, resultKey: string, id: RowId)
    requires Gone(db, id) && w in db.workers
    ensures Gone(WorkStep(db, w, ok, expiresAt, resultKey), id)
  {
    match Owned(db.workers[w])
    case Some(Download(j)) => assert WorkStep(db, w, ok, expiresAt, resultKey).subtitles == db.subtitles;
    case _ =>
  }

  lemma GoneStays(timeout: nat, db: Db, id: RowId, e: Event)
    requires Gone(db, id)
    ensures Gone(Step(timeout, db, e), id)
  {
    if e.Work? && e.w in db.workers {
      GoneAfterWork(db, e.w, e.ok, e.expiresAt, e.resultKey, id);
    }
  }

  lemma {:induction false} GoneForGood(timeout: nat, db: Db, id: RowId, es: seq<Event>)
    requires Gone(db, id)
    ensures Gone(After(timeout, db, es), id)
    decreases |es|
  {
    if es != [] {
      GoneStays(timeout, db, id, es[0]);
      GoneForGood(timeout, Step(timeout, db, es[0]), id, es[1..]);
    }
  }

  /** Such a row blocks both tables, whatever happens, exactly until it is deleted: until then nobody processes any job. */
  lemma {:induction false} BlockedUntilDeleted(timeout: nat, db: Db, id: RowId, es: seq<Event>)
    requires BlockedBy(db, id) && id < db.nextRow
    ensures BlockedBy(After(timeout, db, es), id) <==> DeleteSubtitle(id) !in es
    decreases |es|
  {
    if es != [] {
      var next := Step(timeout, db, es[0]);
      assert es == [es[0]] + es[1..];
      if es[0] == DeleteSubtitle(id) {
        GoneForGood(timeout, next, id, es[1..]);
      } else {
        BlockedStays(timeout, db, id, es[0]);
        BlockedUntilDeleted(timeout, next, id, es[1..]);
      }
    }
  }

  // ---- and the sweep deletes it at its expiry ----

  /** The subtitle table as the hourly sweep sees it: object keys and expiry, whatever the status. */
  function SweptTable(db: Db): map<nat, S.Entry> {
    map id | id in db.subtitles ::
      S.Entry([db.subtitles[id].sourceKey]
              + (if db.subtitles[id].resultKey.Some? then [db.subtitles[id].resultKey.value] else []),
              db.subtitles[id].expiresAt)
  }

  /** The deletions of a sweep that fails nowhere. */
  function Deletions(list: seq<S.Listed>): seq<Event> {
    if list == [] then [] else [DeleteSubtitle(list[0].0)] + Deletions(list[1..])
  }

  lemma {:induction false} DeletedIffListed(list: seq<S.Listed>, id: RowId)
    ensures DeleteSubtitle(id) in Deletions(list) <==> S.Lists(list, id)
  {
    if list != [] {
      DeletedIffListed(list[1..], id);
      assert Deletions(list) == [DeleteSubtitle(list[0].0)] + Deletions(list[1..]);
      if S.Lists(list[1..], id) {
        var k :| 0 <= k < |list[1..]| && list[1..][k].0 == id;
        assert list[k + 1].0 == id;
      }
      if S.Lists(list, id) && list[0].0 != id {
        var k :| 0 <= k < |list| && list[k].0 == id;
        assert list[1..][k - 1].0 == id;
      }
    }
  }

  /** A sweep lifts the block exactly if the row has expired by then. */
  lemma SweepLiftsBlockIff(timeout: nat, db: Db, id: RowId, list: seq<S.Listed>)
    requires BlockedBy(db, id) && id < db.nextRow && S.Snapshot(SweptTable(db), db.now, list)
    ensures BlockedBy(After(timeout, db, Deletions(list)), id) <==> db.subtitles[id].expiresAt > db.now
  {
    BlockedUntilDeleted(timeout, db, id, Deletions(list));
    DeletedIffListed(list, id);
    if S.Lists(list, id) {
      var k :| 0 <= k < |list| && list[k].0 == id;
      assert list[k].1 == SweptTable(db)[id];
    }
  }

  ghost predicate Reaches(timeout: nat, start: Db, db: Db) {
    exists es :: After(timeout, start, es) == db
  }

  lemma {:induction false} AfterSnoc(timeout: nat, db: Db, es: seq<Event>, e: Event)
    ensures After(timeout, db, es + [e]) == Step(timeout, After(timeout, db, es), e)
    decreases |es|
  {
    if es == [] {
      assert es + [e] == [e];
      assert After(timeout, Step(timeout, db, e), []) == Step(timeout, db, e);
      assert [e][1..] == [];
    } else {
      AfterSnoc(timeout, Step(timeout, db, es[0]), es[1..], e);
      assert (es + [e])[1..] == es[1..] + [e];
    }
  }

  lemma {:induction false} AfterConcat(timeout: nat, db: Db, a: seq<Event>, b: seq<Event>)
    ensures After(timeout, db, a + b) == After(timeout, After(timeout, db, a), b)
    decreases |a|
  {
    if a == [] {
      assert a + b == b;
    } else {
      AfterConcat(timeout, Step(timeout, db, a[0]), a[1..], b);
      assert (a + b)[1..] == a[1..] + b;
    }
  }

  lemma RunOne(timeout: nat, v0: Db, a: Event)
    ensures After(timeout, v0, [a]) == Step(timeout, v0, a)
  {
    AfterSnoc(timeout, v0, [], a);
    assert [] + [a] == [a];
  }

  lemma RunTwo(timeout: nat, v0: Db, v1: Db, a: Event, b: Event)
    requires Step(timeout, v0, a) == v1
    ensures After(timeout, v0, [a, b]) == Step(timeout, v1, b)
  {
    RunOne(timeout, v0, a);
    AfterSnoc(timeout, v0, [a], b);
    assert [a] + [b] == [a, b];
  }

  lemma RunThree(timeout: nat, v0: Db, v1: Db, v2: Db, a: Event, b: Event, c: Event)
    requires Step(timeout, v0, a) == v1 && Step(timeout, v1, b) == v2
    ensures After(timeout, v0, [a, b, c]) == Step(timeout, v2, c)
  {
    RunTwo(timeout, v0, v1, a, b);
    AfterSnoc(timeout, v0, [a, b], c);
    assert [a, b] + [c] == [a, b, c];
  }

  lemma ReachesStep(timeout: nat, start: Db, db: Db, e: Event)
    requires Reaches(timeout, start, db)
    ensures Reaches(timeout, start, Step(timeout, db, e))
  {
    var es :| After(timeout, start, es) == db;
    AfterSnoc(timeout, start, es, e);
  }

  const TWO_WORKERS := Db(map[], map[], map[], {}, map[0 := Top, 1 := Top], 0, 0, 0)

  /** The one row of the scenes: queued, and claimed at time 0. */
  function Fresh0(x: int): SubtitleRow { SubtitleRow(0, SQueued, None, "s", None, x) }

  function Busy0(x: int): SubtitleRow { SubtitleRow(0, Extracting, Some(0), "s", None, x) }

  function Scene(row: SubtitleRow, first: Phase, second: Phase, now: int): Db {
    Db(map[], map[0 := row], map[], {}, map[0 := first, 1 := second], now, 1, 0)
  }

  lemma Move(timeout: nat, a: Db, e: Event, b: Db)
    requires Reaches(timeout, TWO_WORKERS, a) && Step(timeout, a, e) == b
    ensures Reaches(timeout, TWO_WORKERS, b)
  {
    ReachesStep(timeout, TWO_WORKERS, a, e);
  }

  lemma SceneInserted(timeout: nat, x: int)
    ensures Reaches(timeout, TWO_WORKERS, Scene(Fresh0(x), RestoreDownloads(0 - timeout), Top, 0))
  {
    assert After(timeout, TWO_WORKERS, []) == TWO_WORKERS;
    Move(timeout, TWO_WORKERS, InsertSubtitle("s", x), Scene(Fresh0(x), Top, Top, 0));
    Move(timeout, Scene(Fresh0(x), Top, Top, 0), BeginRestore(0), Scene(Fresh0(x), RestoreDownloads(0 - timeout), Top, 0));
  }

  lemma SceneReady(timeout: nat, x: int)
    ensures Reaches(timeout, TWO_WORKERS, Scene(Fresh0(x), Claim(0), Top, 0))
  {
    SceneInserted(timeout, x);
    var cutoff := 0 - timeout;
    var a, b := Scene(Fresh0(x), RestoreDownloads(cutoff), Top, 0), Scene(Fresh0(x), RestoreSubtitles(cutoff), Top, 0);
    assert Step(timeout, a, Restore(0)) == b by {
      assert RestoreDownloadTable(a, cutoff).downloads == map[];
    }
    Move(timeout, a, Restore(0), b);
    assert RestoreSubtitleTable(b, cutoff).subtitles == map[0 := Fresh0(x)];
    Move(timeout, b, Restore(0), Scene(Fresh0(x), Claim(0), Top, 0));
  }

  /** Worker 0 claims the only row and starts on it. */
  lemma SceneClaimed(timeout: nat, x: int)
    ensures Reaches(timeout, TWO_WORKERS, Scene(Busy0(x), Source(0), Top, 0))
  {
    var a := Scene(Fresh0(x), Claim(0), Top, 0);
    SceneReady(timeout, x);
    NextJobIsOldest(a);
    assert Waiting(a, Subtitle(0));
    assert NextJob(a) == Some(Subtitle(0));
    assert Step(timeout, a, TryClaim(0)) == TakeSubtitle(a, 0, 0);
    assert TakeSubtitle(a, 0, 0) == Scene(Busy0(x), Source(0), Top, 0);
    Move(timeout, a, TryClaim(0), Scene(Busy0(x), Source(0), Top, 0));
  }

  /** It outlives the timeout, and worker 1 begins to restore. */
  lemma SceneLate(timeout: nat, x: int)
    ensures Reaches(timeout, TWO_WORKERS, Scene(Busy0(x), ExtractAudio(0), RestoreDownloads(1), timeout + 1))
  {
    SceneClaimed(timeout, x);
    Move(timeout, Scene(Busy0(x), Source(0), Top, 0), Work(0, true, 0, ""), Scene(Busy0(x), ExtractAudio(0), Top, 0));
    Move(timeout, Scene(Busy0(x), ExtractAudio(0), Top, 0), Tick(timeout + 1), Scene(Busy0(x), ExtractAudio(0), Top, timeout + 1));
    Move(timeout, Scene(Busy0(x), ExtractAudio(0), Top, timeout + 1), BeginRestore(1),
         Scene(Busy0(x), ExtractAudio(0), RestoreDownloads(1), timeout + 1));
  }

  /** Worker 1 restores the row under worker 0. */
  lemma SceneTaken(timeout: nat, x: int)
    ensures Reaches(timeout, TWO_WORKERS, Scene(Fresh0(x), ExtractAudio(0), Claim(0), timeout + 1))
  {
    var late := timeout + 1;
    SceneLate(timeout, x);
    var a := Scene(Busy0(x), ExtractAudio(0), RestoreDownloads(1), late);
    var b := Scene(Busy0(x), ExtractAudio(0), RestoreSubtitles(1), late);
    assert RestoreDownloadTable(a, 1).downloads == map[];
    Move(timeout, a, Restore(1), b);
    assert RestoreSubtitleTable(b, 1).subtitles == map[0 := Fresh0(x)];
    Move(timeout, b, Restore(1), Scene(Fresh0(x), ExtractAudio(0), Claim(0), late));
  }

  /** Worker 0 goes on and marks it transcribing. */
  lemma SceneRestored(timeout: nat, x: int)
    ensures Reaches(timeout, TWO_WORKERS, Scene(Fresh0(x).(status := Transcribing), Transcribe(0), Claim(0), timeout + 1))
  {
    SceneTaken(timeout, x);
    Move(timeout, Scene(Fresh0(x), ExtractAudio(0), Claim(0), timeout + 1), Work(0, true, 0, ""),
         Scene(Fresh0(x).(status := Transcribing), Transcribe(0), Claim(0), timeout + 1));
  }

  /**
   For every timeout and every later expiry, two workers can reach a database, with that row not yet
   expired, in which no worker will process any job until the row is deleted.
   */
  lemma LostLeaseBlocks(timeout: nat, x: int)
    requires x > timeout + 1
    ensures exists es ::
              var db := After(timeout, TWO_WORKERS, es);
              BlockedBy(db, 0) && 0 < db.nextRow && db.subtitles[0].expiresAt == x > db.now
  {
    var stuck := Fresh0(x).(status := Transcribing);
    SceneRestored(timeout, x);
    var d1 := Scene(stuck, Transcribe(0), Claim(0), timeout + 1);
    ReachesStep(timeout, TWO_WORKERS, d1, Crash(0));
    var d2 := Scene(stuck, Top, Claim(0), timeout + 1);
    assert Step(timeout, d1, Crash(0)) == d2;
    assert NobodyOwns(d2);
    assert BlockedBy(d2, 0);
  }
}
