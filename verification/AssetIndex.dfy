/**
 The asset index: every job's reference names a live asset row of the job's own
 triple under the key of that triple, however the worker, API requests and the
 expiry sweep interleave; and the API offers a link exactly when it would serve
 the file.
 */
module AssetIndex {
  import opened Common
  import opened WorkerProtocol

  /** An API request creating a job, between its statements. */
  datatype Request =
    | Verify(triple: Triple, asset: AssetId)          // about to HEAD the reusable asset's object
    | DropStale(triple: Triple, asset: AssetId)       // the object is gone: about to delete the row
    | Insert(triple: Triple, found: Option<AssetId>)  // about to insert the job

  type RequestId = nat

  datatype System = System(db: Db, requests: map<RequestId, Request>)

  datatype HeadResult = Found | Missing | StorageError

  datatype SystemEvent =
    | Worker(e: Event)                               // workers, sweeps, the clock, subtitle requests
    | Look(request: RequestId, triple: Triple)
    | Head(request: RequestId, result: HeadResult)
    | Proceed(request: RequestId)                    // the next database statement of the request

  function Close(s: System, request: RequestId): System {
    s.(requests := s.requests - {request})
  }

  ghost function LookStep(s: System, request: RequestId, triple: Triple): System {
    s.(requests := s.requests[request :=
         match Reusable(s.db, triple) case Some(a) => Verify(triple, a) case None => Insert(triple, None)])
  }

  function HeadStep(s: System, request: RequestId, result: HeadResult): System
    requires request in s.requests && s.requests[request].Verify?
  {
    var Verify(t, a) := s.requests[request];
    match result
    case Found => s.(requests := s.requests[request := Insert(t, Some(a))])
    case Missing => s.(requests := s.requests[request := DropStale(t, a)])
    case StorageError => Close(s, request)
  }

  /** Deleting a vanished row, or inserting a job on one, fails and ends the request. */
  function ProceedStep(s: System, request: RequestId): System
    requires request in s.requests
  {
    match s.requests[request]
    case DropStale(t, a) =>
      if a in s.db.assets then System(WithoutAsset(s.db, a), s.requests[request := Insert(t, None)])
      else Close(s, request)
    case Insert(t, a) => Close(s.(db := InsertDownloadStep(s.db, t, a)), request)
    case Verify(_, _) => s
  }

  ghost function SystemStep(timeout: nat, s: System, e: SystemEvent): System {
    match e
    case Worker(e) => if e.InsertDownload? then s else s.(db := Step(timeout, s.db, e))
    case Look(request, triple) => if request in s.requests then s else LookStep(s, request, triple)
    case Head(request, result) =>
      if request in s.requests && s.requests[request].Verify? then HeadStep(s, request, result) else s
    case Proceed(request) => if request in s.requests then ProceedStep(s, request) else s
  }

  ghost function SystemAfter(timeout: nat, s: System, es: seq<SystemEvent>): System
    decreases |es|
  {
    if es == [] then s else SystemAfter(timeout, SystemStep(timeout, s, es[0]), es[1..])
  }

  // ---- the invariant ----

  /** Rows of the asset table: fresh ids, the key of their triple, one row per triple. */
  ghost predicate TableInv(db: Db) {
    && (forall a :: a in db.assets ==> a < db.nextAsset && db.assets[a].objectKey == AssetKey(db.assets[a].triple))
    && (forall a, b :: a in db.assets && b in db.assets && db.assets[a].triple == db.assets[b].triple ==> a == b)
  }

  /** A job's reference names a live row of its own triple. */
  ghost predicate RefsInv(db: Db) {
    forall id :: id in db.downloads && db.downloads[id].assetId.Some? ==>
      db.downloads[id].assetId.value in db.assets
      && db.assets[db.downloads[id].assetId.value].triple == db.downloads[id].triple
  }

  /** An asset id read earlier names, if it still names a row at all, a row of that triple. */
  predicate Remembers(db: Db, a: AssetId, t: Triple) {
    a < db.nextAsset && (a in db.assets ==> db.assets[a].triple == t)
  }

  function Held(p: Phase): Option<AssetId> {
    match p
    case CheckReuse(_, a) => Some(a)
    case DropReuse(_, a) => Some(a)
    case Complete(_, a) => Some(a)
    case _ => None
  }

  ghost predicate WorkersRemember(db: Db) {
    && (forall w, id :: Owns(db, w, Download(id)) ==> id in db.downloads)
    && (forall w :: w in db.workers && Held(db.workers[w]).Some? && db.workers[w].id in db.downloads ==>
          Remembers(db, Held(db.workers[w]).value, db.downloads[db.workers[w].id].triple))
  }

  function HeldBy(r: Request): Option<AssetId> {
    match r case Verify(_, a) => Some(a) case DropStale(_, a) => Some(a) case Insert(_, a) => a
  }

  ghost predicate RequestsRemember(s: System) {
    forall r :: r in s.requests && HeldBy(s.requests[r]).Some? ==>
      Remembers(s.db, HeldBy(s.requests[r]).value, s.requests[r].triple)
  }

  ghost predicate DbInv(db: Db) {
    TableInv(db) && RefsInv(db) && WorkersRemember(db) && forall id :: id in db.downloads ==> id < db.nextRow
  }

  ghost predicate IndexInv(s: System) {
    DbInv(s.db) && RequestsRemember(s)
  }

  // ---- how a step may change the two tables ----

  /** Everything remembered is still remembered. */
  ghost predicate MemoryKept(db: Db, db': Db) {
    forall b, t :: Remembers(db, b, t) ==> Remembers(db', b, t)
  }

  /** Job rows keep their triple and reference; assets are the same. */
  ghost predicate TablesKept(db: Db, db': Db) {
    && db'.assets == db.assets && db'.nextAsset == db.nextAsset && db'.nextRow >= db.nextRow
    && db'.downloads.Keys == db.downloads.Keys
    && (forall id :: id in db.downloads ==>
          db'.downloads[id].triple == db.downloads[id].triple && db'.downloads[id].assetId == db.downloads[id].assetId)
  }

  /** Worker `w` moved to a phase whose asset, if any, is remembered for its own row. */
  ghost predicate Moved(db: Db, db': Db, w: WorkerId) {
    && w in db.workers && db'.workers.Keys == db.workers.Keys
    && (forall v :: v in db.workers && v != w ==> db'.workers[v] == db.workers[v])
    && (forall id :: Owned(db'.workers[w]) == Some(Download(id)) ==> id in db'.downloads)
    && (Held(db'.workers[w]).Some? && db'.workers[w].id in db'.downloads ==>
          Remembers(db', Held(db'.workers[w]).value, db'.downloads[db'.workers[w].id].triple))
  }

  lemma KeptAndMoved(db: Db, db': Db, w: WorkerId)
    requires DbInv(db) && TablesKept(db, db') && Moved(db, db', w)
    ensures DbInv(db')
  {
    forall v, id: RowId | Owns(db', v, Download(id)) ensures id in db'.downloads {
      assert v != w ==> Owns(db, v, Download(id));
    }
  }

  lemma Kept(db: Db, db': Db)
    requires DbInv(db) && TablesKept(db, db') && db'.workers == db.workers
    ensures DbInv(db')
  {
    forall v, id: RowId | Owns(db', v, Download(id)) ensures id in db'.downloads {
      assert Owns(db, v, Download(id));
    }
  }

  /** Deleting an asset row nulls every reference to it, so nothing dangles. */
  lemma DeleteKeeps(db: Db, a: AssetId)
    requires DbInv(db)
    ensures DbInv(WithoutAsset(db, a)) && MemoryKept(db, WithoutAsset(db, a))
  {
    var db' := WithoutAsset(db, a);
    DeleteKeepsRefs(db, a);
    forall v, id: RowId | Owns(db', v, Download(id)) ensures id in db'.downloads {
      assert Owns(db, v, Download(id));
    }
    forall v | v in db'.workers && Held(db'.workers[v]).Some? && db'.workers[v].id in db'.downloads
      ensures Remembers(db', Held(db'.workers[v]).value, db'.downloads[db'.workers[v].id].triple)
    {
      assert Remembers(db, Held(db.workers[v]).value, db.downloads[db.workers[v].id].triple);
    }
  }

  lemma DeleteKeepsRefs(db: Db, a: AssetId)
    requires TableInv(db) && RefsInv(db)
    ensures TableInv(WithoutAsset(db, a)) && RefsInv(WithoutAsset(db, a)) && MemoryKept(db, WithoutAsset(db, a))
  {
  }

  /** The row an upsert writes: the triple's own if it has one, else the next. */
  lemma UpsertShape(db: Db, w: WorkerId, id: RowId, expiresAt: int) returns (a: AssetId)
    requires TableInv(db) && w in db.workers && id in db.downloads
    ensures var db' := UpsertStep(db, w, id, expiresAt);
            var t := db.downloads[id].triple;
            && db'.downloads == db.downloads && db'.nextRow == db.nextRow && db'.workers == db.workers[w := Complete(id, a)]
            && a in db'.assets && db'.assets == db.assets[a := Asset(t, AssetKey(t), expiresAt)]
            && a < db'.nextAsset && db.nextAsset <= db'.nextAsset
            && (a in db.assets ==> db.assets[a].triple == t)
            && (a !in db.assets ==> a == db.nextAsset && forall b :: b in db.assets ==> db.assets[b].triple != t)
  {
    a := UpsertStep(db, w, id, expiresAt).workers[w].asset;
  }

  /** An upsert creates a row only when the triple has none, and otherwise renews the one there is. */
  lemma UpsertKeeps(db: Db, w: WorkerId, id: RowId, expiresAt: int)
    requires DbInv(db) && w in db.workers && db.workers[w] == Upsert(id) && id in db.downloads
    ensures DbInv(UpsertStep(db, w, id, expiresAt))
    ensures MemoryKept(db, UpsertStep(db, w, id, expiresAt))
  {
    var db' := UpsertStep(db, w, id, expiresAt);
    var a := UpsertShape(db, w, id, expiresAt);
    UpsertKeepsRows(db, db', a);
    KeptByAssets(db, db', w);
  }

  /** Writing one asset row that is new, or has its old triple, keeps what anyone remembers. */
  lemma UpsertKeepsRows(db: Db, db': Db, a: AssetId)
    requires TableInv(db) && RefsInv(db) && db'.downloads == db.downloads
    requires a in db'.assets && db'.assets == db.assets[a := db'.assets[a]]
    requires db'.assets[a].objectKey == AssetKey(db'.assets[a].triple) && a < db'.nextAsset && db.nextAsset <= db'.nextAsset
    requires a in db.assets ==> db.assets[a].triple == db'.assets[a].triple
    requires a !in db.assets ==> a == db.nextAsset && forall b :: b in db.assets ==> db.assets[b].triple != db'.assets[a].triple
    ensures TableInv(db') && RefsInv(db') && MemoryKept(db, db')
  {
  }

  /** A worker that goes on with its row and an asset remembered for it, over tables that only gained assets. */
  lemma KeptByAssets(db: Db, db': Db, w: WorkerId)
    requires DbInv(db) && TableInv(db') && RefsInv(db') && db'.downloads == db.downloads && db'.nextRow == db.nextRow
    requires MemoryKept(db, db')
    requires Moved(db, db', w)
    ensures DbInv(db')
  {
    forall v, j: RowId | Owns(db', v, Download(j)) ensures j in db'.downloads {
      assert v != w ==> Owns(db, v, Download(j));
    }
  }

  lemma CompleteKeeps(db: Db, w: WorkerId, id: RowId, a: AssetId)
    requires DbInv(db) && w in db.workers && db.workers[w] == Complete(id, a) && id in db.downloads
    ensures DbInv(CompleteStep(db, w, id, a)) && MemoryKept(db, CompleteStep(db, w, id, a))
  {
    var db' := CompleteStep(db, w, id, a);
    forall v, j: RowId | Owns(db', v, Download(j)) ensures j in db'.downloads {
      assert Owns(db, v, Download(j)) || j == id;
    }
  }

  lemma InsertKeeps(db: Db, t: Triple, a: Option<AssetId>)
    requires DbInv(db) && (a.Some? ==> Remembers(db, a.value, t))
    ensures DbInv(InsertDownloadStep(db, t, a))
  {
    var db' := InsertDownloadStep(db, t, a);
    forall v, j: RowId | Owns(db', v, Download(j)) ensures j in db'.downloads && j < db.nextRow {
      assert Owns(db, v, Download(j));
    }
    forall v | v in db.workers && Held(db.workers[v]).Some? ensures db.workers[v].id in db.downloads {
      assert Owns(db, v, Download(db.workers[v].id));
    }
  }

  // ---- worker steps ----

  lemma DropWorkKeeps(db: Db, w: WorkerId, id: RowId, a: AssetId)
    requires DbInv(db) && w in db.workers && db.workers[w] == DropReuse(id, a) && id in db.downloads
    ensures DbInv(DropStep(db, w, id, a)) && MemoryKept(db, DropStep(db, w, id, a))
  {
    if a in db.assets {
      DeleteKeeps(db, a);
      GotoKeeps(WithoutAsset(db, a), w, Extract(id), id);
    } else {
      GotoKeeps(db, w, Fail(id), id);
    }
  }

  lemma GotoKeeps(db: Db, w: WorkerId, p: Phase, id: RowId)
    requires DbInv(db) && w in db.workers && id in db.downloads && Owned(p) == Some(Download(id)) && Held(p).None?
    ensures DbInv(Goto(db, w, p)) && MemoryKept(db, Goto(db, w, p))
  {
    KeptAndMoved(db, Goto(db, w, p), w);
  }

  /** A statement that moves the worker on and leaves references and assets alone. */
  lemma MoveKeeps(db: Db, db': Db, w: WorkerId)
    requires DbInv(db) && TablesKept(db, db')
    requires w in db.workers && w in db'.workers && db'.workers == db.workers[w := db'.workers[w]]
    requires Owned(db'.workers[w]).Some? ==> Owned(db'.workers[w]) == Owned(db.workers[w])
    requires Held(db'.workers[w]).Some? ==> Held(db'.workers[w]) == Held(db.workers[w])
    ensures DbInv(db') && MemoryKept(db, db')
  {
    assert Owned(db.workers[w]).Some? ==> Owns(db, w, Owned(db.workers[w]).value);
    KeptAndMoved(db, db', w);
  }

  lemma LookWorkKeeps(db: Db, w: WorkerId, ok: bool, expiresAt: int, resultKey: string, id: RowId)
    requires DbInv(db) && w in db.workers && id in db.downloads
    requires db.workers[w] == Reuse(id) || (db.workers[w].CheckReuse? && db.workers[w].id == id)
    ensures DbInv(WorkStep(db, w, ok, expiresAt, resultKey))
    ensures MemoryKept(db, WorkStep(db, w, ok, expiresAt, resultKey))
  {
    if db.workers[w].Reuse? {
      ReuseKeeps(db, w, id);
    } else {
      MoveKeeps(db, CheckStep(db, w, id, db.workers[w].asset, ok), w);
    }
  }

  lemma ReuseKeeps(db: Db, w: WorkerId, id: RowId)
    requires DbInv(db) && w in db.workers && id in db.downloads
    ensures DbInv(ReuseStep(db, w, id)) && MemoryKept(db, ReuseStep(db, w, id))
  {
    match Reusable(db, db.downloads[id].triple)
    case None => GotoKeeps(db, w, Extract(id), id);
    case Some(a) => KeptAndMoved(db, Goto(db, w, CheckReuse(id, a)), w);
  }

  lemma EndWorkKeeps(db: Db, w: WorkerId, ok: bool, expiresAt: int, resultKey: string, id: RowId)
    requires DbInv(db) && w in db.workers && id in db.downloads
    requires db.workers[w] == Extract(id) || db.workers[w] == Fail(id)
    ensures DbInv(WorkStep(db, w, ok, expiresAt, resultKey))
    ensures MemoryKept(db, WorkStep(db, w, ok, expiresAt, resultKey))
  {
    MoveKeeps(db, WorkStep(db, w, ok, expiresAt, resultKey), w);
  }

  lemma DownloadWorkKeeps(db: Db, w: WorkerId, ok: bool, expiresAt: int, resultKey: string, id: RowId)
    requires DbInv(db) && w in db.workers && Owned(db.workers[w]) == Some(Download(id))
    ensures DbInv(WorkStep(db, w, ok, expiresAt, resultKey))
    ensures MemoryKept(db, WorkStep(db, w, ok, expiresAt, resultKey))
  {
    assert Owns(db, w, Download(id));
    var p := db.workers[w];
    if p.Reuse? || p.CheckReuse? {
      LookWorkKeeps(db, w, ok, expiresAt, resultKey, id);
    } else if p.DropReuse? {
      DropWorkKeeps(db, w, id, p.asset);
    } else if p.Upsert? {
      UpsertKeeps(db, w, id, expiresAt);
    } else if p.Complete? {
      CompleteKeeps(db, w, id, p.asset);
    } else {
      EndWorkKeeps(db, w, ok, expiresAt, resultKey, id);
    }
  }

  lemma SubtitleWorkShape(db: Db, w: WorkerId, ok: bool, expiresAt: int, resultKey: string, id: RowId)
    requires w in db.workers && Owned(db.workers[w]) == Some(Subtitle(id))
    ensures var db' := WorkStep(db, w, ok, expiresAt, resultKey);
            && db'.downloads == db.downloads && db'.assets == db.assets
            && db'.nextAsset == db.nextAsset && db'.nextRow == db.nextRow
            && w in db'.workers && db'.workers == db.workers[w := db'.workers[w]]
            && (Owned(db'.workers[w]).None? || Owned(db'.workers[w]) == Owned(db.workers[w]))
            && Held(db'.workers[w]).None?
  {
    var db' := WorkStep(db, w, ok, expiresAt, resultKey);
    assert db'.workers == db.workers[w := db'.workers[w]];
  }

  lemma SubtitleWorkKeeps(db: Db, w: WorkerId, ok: bool, expiresAt: int, resultKey: string, id: RowId)
    requires DbInv(db) && w in db.workers && Owned(db.workers[w]) == Some(Subtitle(id))
    ensures DbInv(WorkStep(db, w, ok, expiresAt, resultKey))
    ensures MemoryKept(db, WorkStep(db, w, ok, expiresAt, resultKey))
  {
    SubtitleWorkShape(db, w, ok, expiresAt, resultKey, id);
    MoveKeeps(db, WorkStep(db, w, ok, expiresAt, resultKey), w);
  }

  lemma WorkKeeps(db: Db, w: WorkerId, ok: bool, expiresAt: int, resultKey: string)
    requires DbInv(db) && w in db.workers
    ensures DbInv(WorkStep(db, w, ok, expiresAt, resultKey))
    ensures MemoryKept(db, WorkStep(db, w, ok, expiresAt, resultKey))
  {
    match Owned(db.workers[w])
    case Some(Download(id)) => DownloadWorkKeeps(db, w, ok, expiresAt, resultKey, id);
    case Some(Subtitle(id)) => SubtitleWorkKeeps(db, w, ok, expiresAt, resultKey, id);
    case None =>
  }

  lemma TakeDownloadKeeps(db: Db, w: WorkerId, id: RowId)
    requires DbInv(db) && w in db.workers && id in db.downloads
    ensures DbInv(TakeDownload(db, w, id)) && MemoryKept(db, TakeDownload(db, w, id))
  {
    KeptAndMoved(db, TakeDownload(db, w, id), w);
  }

  lemma TakeSubtitleKeeps(db: Db, w: WorkerId, id: RowId)
    requires DbInv(db) && w in db.workers && id in db.subtitles
    ensures DbInv(TakeSubtitle(db, w, id)) && MemoryKept(db, TakeSubtitle(db, w, id))
  {
    KeptAndMoved(db, TakeSubtitle(db, w, id), w);
  }

  lemma ClaimKeeps(db: Db, w: WorkerId)
    requires DbInv(db) && w in db.workers
    ensures DbInv(ClaimStep(db, w)) && MemoryKept(db, ClaimStep(db, w))
  {
    if AnyActive(db) || NextJob(db).None? {
      MoveKeeps(db, Goto(db, w, Top), w);
    } else {
      match NextJob(db).value {
        case Download(id) => if id in db.downloads { TakeDownloadKeeps(db, w, id); }
        case Subtitle(id) => if id in db.subtitles { TakeSubtitleKeeps(db, w, id); }
      }
    }
  }

  lemma RestoreKeeps(timeout: nat, db: Db, w: WorkerId)
    requires DbInv(db)
    ensures DbInv(Step(timeout, db, Restore(w))) && MemoryKept(db, Step(timeout, db, Restore(w)))
  {
    var db' := Step(timeout, db, Restore(w));
    if w in db.workers && (db.workers[w].RestoreDownloads? || db.workers[w].RestoreSubtitles?) {
      MoveKeeps(db, db', w);
    }
  }

  /** Back to the top, on to the restore or to the next attempt, or into the catch block. */
  lemma JumpKeeps(timeout: nat, db: Db, e: Event)
    requires DbInv(db) && (e.BeginRestore? || e.Conflict? || e.StatementFails? || e.Crash?)
    ensures DbInv(Step(timeout, db, e)) && MemoryKept(db, Step(timeout, db, e))
  {
    if e.w in db.workers && Step(timeout, db, e) != db {
      MoveKeeps(db, Step(timeout, db, e), e.w);
    }
  }

  lemma LoopKeeps(timeout: nat, db: Db, e: Event)
    requires DbInv(db) && (e.BeginRestore? || e.Restore? || e.Conflict? || e.TryClaim? || e.StatementFails? || e.Crash?)
    ensures DbInv(Step(timeout, db, e)) && MemoryKept(db, Step(timeout, db, e))
  {
    if e.Restore? {
      RestoreKeeps(timeout, db, e.w);
    } else if e.TryClaim? {
      if e.w in db.workers { ClaimKeeps(db, e.w); }
    } else {
      JumpKeeps(timeout, db, e);
    }
  }

  lemma WorkerEventKeeps(timeout: nat, db: Db, e: Event)
    requires DbInv(db) && !e.InsertDownload?
    ensures DbInv(Step(timeout, db, e)) && MemoryKept(db, Step(timeout, db, e))
  {
    match e
    case Work(w, ok, expiresAt, resultKey) =>
      if w in db.workers { WorkKeeps(db, w, ok, expiresAt, resultKey); }
    case DeleteAsset(a) => DeleteKeeps(db, a);
    case Tick(now) => Kept(db, Step(timeout, db, e));
    case InsertSubtitle(_, _) => Kept(db, Step(timeout, db, e));
    case DeleteSubtitle(_) => Kept(db, Step(timeout, db, e));
    case _ => LoopKeeps(timeout, db, e);
  }

  // ---- every step, every run ----

  lemma WorkerKeepsIndex(timeout: nat, s: System, e: Event)
    requires IndexInv(s) && !e.InsertDownload?
    ensures IndexInv(s.(db := Step(timeout, s.db, e)))
  {
    WorkerEventKeeps(timeout, s.db, e);
  }

  lemma ProceedKeeps(s: System, request: RequestId)
    requires IndexInv(s) && request in s.requests
    ensures IndexInv(ProceedStep(s, request))
  {
    match s.requests[request] {
      case DropStale(t, a) => DeleteKeeps(s.db, a);
      case Insert(t, a) => InsertKeeps(s.db, t, a);
      case Verify(_, _) =>
    }
  }

  lemma StepKeeps(timeout: nat, s: System, e: SystemEvent)
    requires IndexInv(s)
    ensures IndexInv(SystemStep(timeout, s, e))
  {
    if e.Worker? {
      if !e.e.InsertDownload? { WorkerKeepsIndex(timeout, s, e.e); }
    } else if e.Proceed? && e.request in s.requests {
      ProceedKeeps(s, e.request);
    }
  }

  predicate FreshSystem(s: System) {
    && s.db.downloads == map[] && s.db.assets == map[] && s.db.nextAsset == 0 && s.requests == map[]
    && forall w :: w in s.db.workers ==> s.db.workers[w].Top?
  }

  lemma {:induction false} AfterKeeps(timeout: nat, s: System, es: seq<SystemEvent>)
    requires IndexInv(s)
    ensures IndexInv(SystemAfter(timeout, s, es))
    decreases |es|
  {
    if es != [] {
      StepKeeps(timeout, s, es[0]);
      AfterKeeps(timeout, SystemStep(timeout, s, es[0]), es[1..]);
    }
  }

  /** In every reachable state a job's reference names an existing row of its own triple, stored under that triple's key. */
  lemma ReferencesAgree(timeout: nat, s: System, es: seq<SystemEvent>, id: RowId)
    requires FreshSystem(s)
    requires id in SystemAfter(timeout, s, es).db.downloads
    requires SystemAfter(timeout, s, es).db.downloads[id].assetId.Some?
    ensures var db := SystemAfter(timeout, s, es).db;
            var a := db.downloads[id].assetId.value;
            a in db.assets && db.assets[a].triple == db.downloads[id].triple
            && db.assets[a].objectKey == AssetKey(db.downloads[id].triple)
  {
    AfterKeeps(timeout, s, es);
  }

  // ---- keys ----

  /** A validated video id contains no slash. */
  predicate SlashFree(s: string) {
    forall i :: 0 <= i < |s| ==> s[i] != '/'
  }

  /** The first slash after a slash-free prefix is the one that follows it. */
  lemma FirstSlash(v: string, rest: string)
    requires SlashFree(v)
    ensures var s := v + ("/" + rest);
            |v| < |s| && s[|v|] == '/' && (forall i :: 0 <= i < |v| ==> s[i] != '/')
            && s[..|v|] == v && s[|v| + 1..] == rest
  {
  }

  lemma TailsAgree(t1: Triple, t2: Triple)
    requires KeyTail(t1) == KeyTail(t2)
    ensures t1.kind == t2.kind && t1.quality == t2.quality
  {
    assert KeyTail(t1)[0] == TypeName(t1.kind)[0] && KeyTail(t2)[0] == TypeName(t2.kind)[0];
    var n := |KeyTail(t1)|;
    assert KeyTail(t1)[6..n - 4] == t1.quality && KeyTail(t2)[6..n - 4] == t2.quality;
  }

  /** Different extractions never share an object key. */
  lemma KeysAreDistinct(t1: Triple, t2: Triple)
    requires SlashFree(t1.videoId) && SlashFree(t2.videoId)
    ensures AssetKey(t1) == AssetKey(t2) <==> t1 == t2
  {
    if AssetKey(t1) == AssetKey(t2) {
      assert AssetKey(t1)[9..] == t1.videoId + ("/" + KeyTail(t1));
      assert AssetKey(t2)[9..] == t2.videoId + ("/" + KeyTail(t2));
      FirstSlash(t1.videoId, KeyTail(t1));
      FirstSlash(t2.videoId, KeyTail(t2));
      assert |t1.videoId| == |t2.videoId|;
      TailsAgree(t1, t2);
    }
  }

  // ---- what the API shows and serves ----

  datatype FileError = NotFound | Gone

  function JoinedAsset(db: Db, id: RowId): Option<Asset>
    requires id in db.downloads
  {
    var a := db.downloads[id].assetId;
    if a.Some? && a.value in db.assets then Some(db.assets[a.value]) else None
  }

  /** `getFile` up to the storage read: the object key to stream. */
  function GetFile(db: Db, id: RowId, now: int): Result<string, FileError> {
    if id !in db.downloads then Err(NotFound)
    else
      var asset := JoinedAsset(db, id);
      if !db.downloads[id].status.DCompleted? || asset.None? then Err(NotFound)
      else if asset.value.expiresAt <= now then Err(Gone)
      else Ok(asset.value.objectKey)
  }

  datatype DisplayStatus = Shown(status: DownloadStatus) | ShownExpired

  function Display(db: Db, id: RowId, now: int): DisplayStatus
    requires id in db.downloads
  {
    var asset := JoinedAsset(db, id);
    if db.downloads[id].status.DCompleted? && (asset.None? || asset.value.expiresAt <= now) then ShownExpired
    else Shown(db.downloads[id].status)
  }

  /** Whether `toResponse` carries a download URL. */
  predicate OffersLink(db: Db, id: RowId, now: int)
    requires id in db.downloads
  {
    Display(db, id, now) == Shown(DCompleted) && JoinedAsset(db, id).Some?
  }

  /** The job is completed and still has an asset row. */
  predicate HasAsset(db: Db, id: RowId) {
    id in db.downloads && db.downloads[id].status.DCompleted? && db.downloads[id].assetId.Some?
    && db.downloads[id].assetId.value in db.assets
  }

  function ExpiryOf(db: Db, id: RowId): int
    requires HasAsset(db, id)
  {
    db.assets[db.downloads[id].assetId.value].expiresAt
  }

  /**
   What `getFile` answers, read off the rows: the file of a completed job whose asset has not expired,
   410 once it has, and 404 for everything else, an unknown job included.
   */
  lemma FileAnswers(timeout: nat, s: System, es: seq<SystemEvent>, id: RowId, now: int)
    requires FreshSystem(s)
    ensures var db := SystemAfter(timeout, s, es).db;
            var answer := GetFile(db, id, now);
            && (answer == Err(NotFound) <==>
                  !(id in db.downloads && db.downloads[id].status.DCompleted? && db.downloads[id].assetId.Some?))
            && (answer == Err(Gone) <==> HasAsset(db, id) && ExpiryOf(db, id) <= now)
            && (answer.Ok? <==> HasAsset(db, id) && ExpiryOf(db, id) > now)
            && (answer.Ok? ==> answer.value == AssetKey(db.downloads[id].triple))
  {
    AfterKeeps(timeout, s, es);
  }

  /** And what is shown: a link with status completed for a file that is served, expired for one that no longer is, else the status. */
  lemma DisplayShows(timeout: nat, s: System, es: seq<SystemEvent>, id: RowId, now: int)
    requires FreshSystem(s) && id in SystemAfter(timeout, s, es).db.downloads
    ensures var db := SystemAfter(timeout, s, es).db;
            var status := db.downloads[id].status;
            && (OffersLink(db, id, now) <==> HasAsset(db, id) && ExpiryOf(db, id) > now)
            && Display(db, id, now) == (if status.DCompleted? && !(HasAsset(db, id) && ExpiryOf(db, id) > now)
                                        then ShownExpired else Shown(status))
  {
    AfterKeeps(timeout, s, es);
  }

  /** A link is offered exactly when the file would be served at that instant, and what is served is the job's own extraction. */
  lemma LinkIffServed(timeout: nat, s: System, es: seq<SystemEvent>, id: RowId, now: int)
    requires FreshSystem(s) && id in SystemAfter(timeout, s, es).db.downloads
    ensures var db := SystemAfter(timeout, s, es).db;
            && (OffersLink(db, id, now) <==> GetFile(db, id, now).Ok?)
            && (GetFile(db, id, now).Ok? ==> GetFile(db, id, now).value == AssetKey(db.downloads[id].triple))
            && (Display(db, id, now) == ShownExpired <==>
                  db.downloads[id].status.DCompleted? && GetFile(db, id, now).Err?)
  {
    AfterKeeps(timeout, s, es);
  }
}
