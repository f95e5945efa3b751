/**
 The in-memory download queue as a state machine over values.

 A World is everything the service's objects hold at one instant between two
 JavaScript turns. Each function below is one turn: a public method, the drain
 microtask, or a continuation after an await. `recs` keeps every record object
 ever made, because a running download still holds its record after the record
 has left the service's map; `jobs` is the key set of that map.
 */
module MediaQueue {
  import opened Common
  import opened MediaLifecycle
  import F = FileNames

  datatype Status = Queued | Running | Ready | Failed | Canceled | Expired

  datatype Rec = Rec(
    name: F.Text,                // the download name the request asked for
    status: Status,
    createdAt: int,
    updatedAt: int,
    artifact: Option<FlightId>,  // the directory of a finished download
    consumed: bool,
    aborted: bool)               // the record's AbortController has fired

  /** The cleanup callback a file response holds after `consumeReadyArtifact`. */
  datatype Handle = Handle(job: JobId, dir: FlightId, cleaned: bool)

  datatype World = World(
    recs: map<JobId, Rec>,
    jobs: set<JobId>,
    queue: seq<JobId>,
    running: int,
    drain: bool,
    life: Lifecycle,
    handles: seq<Handle>,
    created: seq<JobId>,   // history: ids in creation order
    started: seq<JobId>,   // history: ids in the order their runs started
    dropped: set<JobId>)   // history: ids canceled while still queued

  const EMPTY_WORLD := World(map[], {}, [], 0, false, EMPTY_LIFECYCLE, [], [], [], {})

  const DEFAULT_QUEUE_LIMIT: nat := 20
  const DEFAULT_CONCURRENCY_LIMIT: nat := 1

  type Positive = n: nat | n > 0 witness 1

  /** The policy (environment settings, absent or positive) and whether each directory can be created. */
  datatype Config = Config(
    concurrencyLimit: Option<Positive>,
    queueLimit: Option<Positive>,
    mkdir: FlightId -> bool)
  {
    function AttemptOf(f: FlightId, name: F.Text): Attempt {
      Attempt(name, SetupOf(mkdir(f), name))
    }

    function RunLimit(): nat {
      if concurrencyLimit.Some? then concurrencyLimit.value else DEFAULT_CONCURRENCY_LIMIT
    }

    function QueueLimit(): nat {
      if queueLimit.Some? then queueLimit.value else DEFAULT_QUEUE_LIMIT
    }

    /** The optional limit the inner download service reads. */
    function SlotLimit(): Option<nat> {
      match concurrencyLimit case None => None case Some(n) => Some(n)
    }
  }

  predicate Known(w: World, id: JobId) {
    id in w.jobs && id in w.recs
  }

  function Mark(w: World, id: JobId, status: Status, now: int): World
    requires id in w.recs
  {
    w.(recs := w.recs[id := w.recs[id].(status := status, updatedAt := now)])
  }

  predicate QueueFull(cfg: Config, w: World) {
    |w.queue| >= cfg.QueueLimit()
  }

  function Create(cfg: Config, w: World, id: JobId, name: F.Text, now: int): World {
    if QueueFull(cfg, w) then w
    else
      w.(recs := w.recs[id := Rec(name, Queued, now, now, None, false, false)],
         jobs := w.jobs + {id},
         queue := w.queue + [id],
         drain := true,
         created := w.created + [id])
  }

  /** What `cancel` undoes before it marks the job: its queue entry, its artifact, or its running download. */
  function Release(w: World, id: JobId): World
    requires id in w.recs
  {
    var job := w.recs[id];
    match job.status
    case Queued => w.(queue := RemoveFirst(w.queue, id), dropped := w.dropped + {id})
    case Ready =>
      if !job.consumed then
        w.(life := if job.artifact.Some? then Cleanup(w.life, job.artifact.value) else w.life,
           recs := w.recs[id := job.(artifact := None)])
      else w
    case Running => w.(recs := w.recs[id := job.(aborted := true)])
    case _ => w
  }

  function Cancel(w: World, id: JobId, now: int): World {
    if !Known(w, id) || w.recs[id].status.Failed? || w.recs[id].status.Expired? then w
    else Mark(Release(w, id), id, Canceled, now)
  }

  datatype ConsumeError = NotFound | NotReady | JobFailed | JobCanceled | Unavailable

  function ConsumeResult(w: World, id: JobId): Result<FlightId, ConsumeError> {
    if !Known(w, id) then Err(NotFound)
    else
      var job := w.recs[id];
      match job.status
      case Queued => Err(NotReady)
      case Running => Err(NotReady)
      case Failed => Err(JobFailed)
      case Canceled => Err(JobCanceled)
      case Expired => Err(Unavailable)
      case Ready =>
        if job.consumed || job.artifact.None? then Err(Unavailable) else Ok(job.artifact.value)
  }

  function Consume(w: World, id: JobId): World {
    match ConsumeResult(w, id)
    case Err(_) => w
    case Ok(dir) =>
      if id in w.recs then
        w.(recs := w.recs[id := w.recs[id].(consumed := true)],
           handles := w.handles + [Handle(id, dir, false)])
      else w
  }

  /** The response callback: runs the artifact's cleanup once and expires the job. */
  function Deliver(w: World, h: nat, now: int): World {
    if h >= |w.handles| || w.handles[h].cleaned || w.handles[h].job !in w.recs then w
    else
      var handle := w.handles[h];
      Mark(w.(handles := w.handles[h := handle.(cleaned := true)],
              life := Cleanup(w.life, handle.dir),
              recs := w.recs[handle.job := w.recs[handle.job].(artifact := None)]),
           handle.job, Expired, now)
  }

  predicate Sweepable(w: World, id: JobId, now: int, ttl: int) {
    && Known(w, id)
    && !w.recs[id].status.Queued? && !w.recs[id].status.Running?
    && now - w.recs[id].updatedAt >= ttl
  }

  function Swept(w: World, now: int, ttl: int): set<JobId> {
    set id | id in w.jobs && Sweepable(w, id, now, ttl)
  }

  /** The effect of the sweep on the lifecycle: the artifact of every swept record is cleaned. */
  function CleanAll(l: Lifecycle, recs: map<JobId, Rec>, gone: set<JobId>): Lifecycle {
    l.(dirs := map d | d in l.dirs ::
         if exists id :: id in gone && id in recs && recs[id].artifact == Some(d)
         then (if l.dirs[d].cleaned then l.dirs[d] else WorkDir(true, l.dirs[d].removals + 1))
         else l.dirs[d])
  }

  function SweepSet(w: World, gone: set<JobId>): World {
    w.(jobs := w.jobs - gone, life := CleanAll(w.life, w.recs, gone))
  }

  /** One turn of the sweep's loop on a record it removes. */
  function SweepStep(w: World, id: JobId): World
    requires id in w.recs
  {
    var artifact := w.recs[id].artifact;
    w.(jobs := w.jobs - {id}, life := if artifact.Some? then Cleanup(w.life, artifact.value) else w.life)
  }

  function Sweep(w: World, now: int, ttl: int): World {
    SweepSet(w, Swept(w, now, ttl))
  }

  /** A job at the head of the queue starts: the synchronous part of `run` and of `download`. */
  function Start(cfg: Config, w: World, id: JobId, now: int): World
    requires id in w.recs
  {
    Mark(w.(running := w.running + 1,
            life := Begin(w.life, cfg.SlotLimit(), cfg.AttemptOf(w.life.next, w.recs[id].name), QueueRun(id)),
            started := w.started + [id]),
         id, Running, now)
  }

  predicate Startable(w: World, id: JobId) {
    Known(w, id) && w.recs[id].status.Queued?
  }

  function DrainLoop(cfg: Config, w: World, now: int): World
    decreases |w.queue|
  {
    if w.running < cfg.RunLimit() && |w.queue| > 0 then
      var id := w.queue[0];
      var w1 := w.(queue := w.queue[1..]);
      if !Startable(w1, id) then DrainLoop(cfg, w1, now)
      else DrainLoop(cfg, Start(cfg, w1, id, now), now)
    else w
  }

  /** The scheduled microtask; without one pending nothing happens. */
  function DrainTask(cfg: Config, w: World, now: int): World {
    if w.drain then DrainLoop(cfg, w.(drain := false), now) else w
  }

  predicate Awaiting(w: World, f: FlightId) {
    f in w.life.flights && w.life.flights[f].phase.Downloading?
  }

  function DownloaderSettles(w: World, f: FlightId, ok: bool): World {
    if Awaiting(w, f) then w.(life := SettleDownloader(w.life, f, ok)) else w
  }

  predicate Settling(w: World, f: FlightId) {
    && f in w.life.flights && !w.life.flights[f].phase.Downloading?
    && w.life.flights[f].caller.QueueRun?
    && w.life.flights[f].caller.job in w.recs
  }

  /** What the run makes of the settled download, before its `finally`. */
  function RunOutcome(w: World, id: JobId, f: FlightId, now: int): World
    requires id in w.recs && f in w.life.flights
  {
    var canceled := w.recs[id].status.Canceled?;
    if w.life.flights[f].phase.Threw? then
      if canceled then w else Mark(w, id, Failed, now)
    else
      if canceled then w.(life := Cleanup(w.life, f))
      else Mark(w.(recs := w.recs[id := w.recs[id].(artifact := Some(f))]), id, Ready, now)
  }

  /** The continuation of `run` after its await, with the `finally` that frees the queue slot. */
  function RunSettles(w: World, f: FlightId, now: int): World {
    if !Settling(w, f) then w
    else
      var w1 := RunOutcome(w, w.life.flights[f].caller.job, f, now);
      w1.(life := Land(w1.life, f), running := w1.running - 1, drain := true)
  }

  /** A direct HTTP download begins. */
  function DirectCall(cfg: Config, w: World, name: F.Text): World {
    w.(life := Begin(w.life, cfg.SlotLimit(), cfg.AttemptOf(w.life.next, name), Direct))
  }

  predicate DirectSettled(w: World, f: FlightId) {
    && f in w.life.flights && !w.life.flights[f].phase.Downloading?
    && w.life.flights[f].caller.Direct?
  }

  /** The direct response ends: its artifact, if there is one, is cleaned. */
  function DirectDelivered(w: World, f: FlightId): World {
    if !DirectSettled(w, f) then w
    else if w.life.flights[f].phase.Returned? then w.(life := Land(Cleanup(w.life, f), f))
    else w.(life := Land(w.life, f))
  }

  datatype Event =
    | ECreate(id: JobId, name: F.Text, now: int)
    | ECancel(id: JobId, now: int)
    | EConsume(id: JobId)
    | EDeliver(h: nat, now: int)
    | ESweep(now: int, ttl: int)
    | EDrain(now: int)
    | EDownloader(f: FlightId, ok: bool)
    | ERun(f: FlightId, now: int)
    | EDirectCall(name: F.Text)
    | EDirectDelivered(f: FlightId)

  /** One turn. An event that is not enabled leaves the world as it is; a fresh UUID never repeats. */
  function Step(cfg: Config, w: World, e: Event): World {
    match e
    case ECreate(id, name, now) => if id in w.recs then w else Create(cfg, w, id, name, now)
    case ECancel(id, now) => Cancel(w, id, now)
    case EConsume(id) => Consume(w, id)
    case EDeliver(h, now) => Deliver(w, h, now)
    case ESweep(now, ttl) => Sweep(w, now, ttl)
    case EDrain(now) => DrainTask(cfg, w, now)
    case EDownloader(f, ok) => DownloaderSettles(w, f, ok)
    case ERun(f, now) => RunSettles(w, f, now)
    case EDirectCall(name) => DirectCall(cfg, w, name)
    case EDirectDelivered(f) => DirectDelivered(w, f)
  }

  /** The world after a whole sequence of turns. */
  function After(cfg: Config, w: World, es: seq<Event>): World
    decreases |es|
  {
    if es == [] then w else After(cfg, Step(cfg, w, es[0]), es[1..])
  }
}
