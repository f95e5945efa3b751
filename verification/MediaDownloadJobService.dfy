/**
 The two services as the objects they are: fields reassigned by methods, one
 method per JavaScript turn. Every method is proved to move the World the
 objects stand for exactly as the state machine in `MediaQueue` says.
 */
module MediaDownloadJobs {
  import opened Common
  import opened MediaLifecycle
  import Q = MediaQueue
  import F = FileNames

  /** One job's record, shared by the service's map, its running download and its response callback. */
  class DownloadJobRecord {
    const jobId: JobId
    const name: F.Text
    const createdAt: int
    var status: Q.Status
    var updatedAt: int
    var artifact: Option<FlightId>
    var consumed: bool
    var aborted: bool

    constructor (jobId: JobId, name: F.Text, now: int)
      ensures this.jobId == jobId
      ensures View() == Q.Rec(name, Q.Queued, now, now, None, false, false)
    {
      this.jobId, this.name := jobId, name;
      createdAt, updatedAt := now, now;
      status, artifact, consumed, aborted := Q.Queued, None, false, false;
    }

    ghost function View(): Q.Rec
      reads this
    {
      Q.Rec(name, status, createdAt, updatedAt, artifact, consumed, aborted)
    }

    method Mark(status: Q.Status, now: int)
      modifies this`status, this`updatedAt
      ensures View() == old(View()).(status := status, updatedAt := now)
    {
      this.status := status;
      updatedAt := now;
    }
  }

  /** The shared download lifecycle with its slot counter and its pending continuations. */
  class MediaDownloadService {
    const slotLimit: Option<nat>
    const mkdir: FlightId -> bool
    var activeDownloads: int
    var flights: map<FlightId, Flight>
    var dirs: map<FlightId, WorkDir>
    var next: FlightId
    ghost var lost: set<FlightId>
    ghost var attempts: map<FlightId, Attempt>

    constructor (cfg: Q.Config)
      ensures View() == EMPTY_LIFECYCLE && slotLimit == cfg.SlotLimit() && mkdir == cfg.mkdir
    {
      slotLimit, mkdir := cfg.SlotLimit(), cfg.mkdir;
      activeDownloads, flights, dirs, next, lost, attempts := 0, map[], map[], 0, {}, map[];
    }

    ghost function View(): Lifecycle
      reads this
    {
      Lifecycle(activeDownloads, flights, dirs, next, lost, attempts)
    }

    /** The synchronous part of `download`. */
    method Download(name: F.Text, caller: Caller) returns (f: FlightId)
      modifies this
      ensures f == old(next) && View() == Begin(old(View()), slotLimit, Attempt(name, SetupOf(mkdir(f), name)), caller)
      ensures next == f + 1 && f in flights && flights[f].caller == caller && flights == old(flights)[f := flights[f]]
    {
      f := next;
      next := next + 1;
      if slotLimit.Some? && activeDownloads >= slotLimit.value {
        flights := flights[f := Flight(caller, Threw(TooManyActive))];
        return;
      }
      activeDownloads := activeDownloads + 1;
      var setup := SetupOf(mkdir(f), name);
      attempts := attempts[f := Attempt(name, setup)];
      match setup {
        case MkdirThrew =>
          lost := lost + {f};
          flights := flights[f := Flight(caller, Threw(SetupThrew))];
        case PathThrew =>
          dirs := dirs[f := WorkDir(false, 0)];
          lost := lost + {f};
          flights := flights[f := Flight(caller, Threw(SetupThrew))];
        case SetupOk =>
          dirs := dirs[f := WorkDir(false, 0)];
          flights := flights[f := Flight(caller, Downloading)];
      }
    }

    method RunCleanup(d: FlightId)
      modifies this`dirs
      ensures View() == Cleanup(old(View()), d)
    {
      if d !in dirs || dirs[d].cleaned {
        return;
      }
      dirs := dirs[d := WorkDir(true, dirs[d].removals + 1)];
    }

    /** `download` after its await. */
    method Continue(f: FlightId, ok: bool)
      requires f in flights && flights[f].phase.Downloading?
      modifies this
      ensures View() == SettleDownloader(old(View()), f, ok)
    {
      if ok {
        flights := flights[f := flights[f].(phase := Returned)];
      } else {
        RunCleanup(f);
        flights := flights[f := flights[f].(phase := Threw(DownloaderFailed))];
      }
      activeDownloads := activeDownloads - 1;
    }

    method LandFlight(f: FlightId)
      modifies this`flights
      ensures View() == Land(old(View()), f)
    {
      flights := flights - {f};
    }
  }

  /** The values of a family of records. */
  ghost function Values(records: map<JobId, DownloadJobRecord>): map<JobId, Q.Rec>
    reads records.Values
  {
    map id | id in records :: records[id].View()
  }

  class MediaDownloadJobService {
    const cfg: Q.Config
    const media: MediaDownloadService
    var jobs: map<JobId, DownloadJobRecord>
    var queue: seq<JobId>
    var runningCount: int
    var drainScheduled: bool
    var runs: map<FlightId, DownloadJobRecord>  // the record each pending run holds
    var handles: seq<Q.Handle>                  // the response callbacks handed out
    var handleJobs: seq<DownloadJobRecord>      // and the record each of them holds
    ghost var records: map<JobId, DownloadJobRecord>  // every record object ever made
    ghost var created: seq<JobId>
    ghost var started: seq<JobId>
    ghost var dropped: set<JobId>

    ghost predicate Valid()
      reads this, media, records.Values
    {
      && media.slotLimit == cfg.SlotLimit() && media.mkdir == cfg.mkdir
      && (forall id :: id in jobs ==> id in records && jobs[id] == records[id])
      && (forall id :: id in records ==> records[id].jobId == id)
      && |handleJobs| == |handles|
      && (forall h :: 0 <= h < |handles| ==> handles[h].job in records && records[handles[h].job] == handleJobs[h])
      && (forall f :: f in media.flights && media.flights[f].caller.QueueRun? ==>
            f in runs && runs[f].jobId in records && records[runs[f].jobId] == runs[f]
            && media.flights[f].caller.job == runs[f].jobId)
      && (forall f :: f in media.flights ==> f < media.next)
    }

    /** The World these objects stand for. */
    ghost function View(): Q.World
      reads this, media, records.Values
    {
      Q.World(Values(records), jobs.Keys, queue, runningCount, drainScheduled, media.View(), handles,
              created, started, dropped)
    }

    constructor (cfg: Q.Config, media: MediaDownloadService)
      requires media.View() == EMPTY_LIFECYCLE && media.slotLimit == cfg.SlotLimit() && media.mkdir == cfg.mkdir
      ensures Valid() && View() == Q.EMPTY_WORLD && this.cfg == cfg && this.media == media
    {
      this.cfg, this.media := cfg, media;
      jobs, queue, runningCount, drainScheduled := map[], [], 0, false;
      runs, handles, handleJobs := map[], [], [];
      records, created, started, dropped := map[], [], [], {};
    }

    method ScheduleDrain()
      modifies this`drainScheduled
      ensures drainScheduled
    {
      if drainScheduled {
        return;
      }
      drainScheduled := true;
    }

    method Register(id: JobId, job: DownloadJobRecord)
      requires Valid() && id !in records && job.jobId == id
      modifies this`jobs, this`records
      ensures Valid() && records == old(records)[id := job] && jobs == old(jobs)[id := job]
      ensures Values(records) == old(Values(records))[id := job.View()]
      ensures jobs.Keys == old(jobs.Keys) + {id}
    {
      jobs := jobs[id := job];
      records := records[id := job];
    }

    method Enqueue(id: JobId)
      requires Valid()
      modifies this`queue, this`drainScheduled, this`created
      ensures Valid()
      ensures View() == old(View()).(queue := old(queue) + [id], drain := true, created := old(created) + [id])
    {
      queue := queue + [id];
      ScheduleDrain();
      created := created + [id];
    }

    /** `id` is a fresh UUID. */
    method Create(id: JobId, name: F.Text, now: int) returns (accepted: bool)
      requires Valid() && id !in records
      modifies this
      ensures Valid() && View() == Q.Create(cfg, old(View()), id, name, now)
      ensures accepted <==> |old(queue)| < cfg.QueueLimit()
      ensures fresh(records.Values - old(records.Values))
    {
      if |queue| >= cfg.QueueLimit() {
        return false;
      }
      var job := new DownloadJobRecord(id, name, now);
      Register(id, job);
      Enqueue(id);
      accepted := true;
    }

    /** `indexOf`, then `splice`. */
    method SpliceQueue(id: JobId)
      modifies this`queue
      ensures queue == RemoveFirst(old(queue), id)
    {
      var i := IndexOf(queue, id);
      SpliceRemovesFirst(queue, id);
      if i >= 0 {
        queue := queue[..i] + queue[i + 1..];
      }
    }

    method RemoveQueuedJob(id: JobId)
      requires Valid()
      modifies this`queue, this`dropped
      ensures Valid()
      ensures View() == old(View()).(queue := RemoveFirst(old(queue), id), dropped := old(dropped) + {id})
    {
      SpliceQueue(id);
      dropped := dropped + {id};
    }

    method MarkJob(job: DownloadJobRecord, status: Q.Status, now: int)
      requires Valid() && job.jobId in records && records[job.jobId] == job
      modifies job`status, job`updatedAt
      ensures Valid() && View() == Q.Mark(old(View()), job.jobId, status, now)
    {
      job.Mark(status, now);
      assert Values(records) == old(Values(records))[job.jobId := job.View()];
    }

    method SetArtifact(job: DownloadJobRecord, artifact: Option<FlightId>)
      requires Valid() && job.jobId in records && records[job.jobId] == job
      modifies job`artifact
      ensures Valid() && Values(records) == old(Values(records))[job.jobId := old(job.View()).(artifact := artifact)]
    {
      job.artifact := artifact;
      assert Values(records) == old(Values(records))[job.jobId := job.View()];
    }

    method Abort(job: DownloadJobRecord)
      requires Valid() && job.jobId in records && records[job.jobId] == job
      modifies job`aborted
      ensures Valid() && Values(records) == old(Values(records))[job.jobId := old(job.View()).(aborted := true)]
    {
      job.aborted := true;
      assert Values(records) == old(Values(records))[job.jobId := job.View()];
    }

    method CleanArtifact(job: DownloadJobRecord)
      requires Valid()
      modifies media`dirs
      ensures Valid()
      ensures View() == old(View()).(life := if job.artifact.Some? then Cleanup(old(View()).life, job.artifact.value)
                                             else old(View()).life)
    {
      if job.artifact.Some? {
        media.RunCleanup(job.artifact.value);
      }
    }

    method ReleaseJob(id: JobId, job: DownloadJobRecord)
      requires Valid() && id in records && records[id] == job
      modifies this`queue, this`dropped, media`dirs, job`artifact, job`aborted
      ensures Valid() && View() == Q.Release(old(View()), id)
    {
      if job.status.Queued? {
        RemoveQueuedJob(id);
      }
      if job.status.Ready? && !job.consumed {
        CleanArtifact(job);
        SetArtifact(job, None);
      }
      if job.status.Running? {
        Abort(job);
      }
    }

    method CancelRecord(id: JobId, job: DownloadJobRecord, now: int)
      requires Valid() && id in records && records[id] == job
      modifies this`queue, this`dropped, media`dirs, job
      ensures Valid()
      ensures View() == if old(job.status) in {Q.Failed, Q.Expired} then old(View())
                        else Q.Mark(Q.Release(old(View()), id), id, Q.Canceled, now)
    {
      ReleaseJob(id, job);
      if job.status !in {Q.Failed, Q.Expired} {
        MarkJob(job, Q.Canceled, now);
      }
    }

    method Cancel(id: JobId, now: int) returns (found: bool)
      requires Valid()
      modifies this`queue, this`dropped, media`dirs, jobs.Values
      ensures Valid() && View() == Q.Cancel(old(View()), id, now)
      ensures found <==> id in jobs
    {
      if id !in jobs {
        return false;
      }
      CancelRecord(id, jobs[id], now);
      found := true;
    }

    method ConsumeReadyArtifact(id: JobId) returns (r: Result<nat, Q.ConsumeError>)
      requires Valid()
      modifies this`handles, this`handleJobs, records.Values
      ensures Valid() && View() == Q.Consume(old(View()), id)
      ensures match Q.ConsumeResult(old(View()), id)
              case Err(e) => r == Err(e)
              case Ok(dir) => r == Ok(|old(handles)|) && handles == old(handles) + [Q.Handle(id, dir, false)]
    {
      if id !in jobs {
        return Err(Q.NotFound);
      }
      var job := jobs[id];
      if job.status.Queued? || job.status.Running? {
        return Err(Q.NotReady);
      }
      if job.status.Failed? {
        return Err(Q.JobFailed);
      }
      if job.status.Canceled? {
        return Err(Q.JobCanceled);
      }
      if job.status.Expired? || job.consumed || job.artifact.None? {
        return Err(Q.Unavailable);
      }
      job.consumed := true;
      r := Ok(|handles|);
      handles := handles + [Q.Handle(id, job.artifact.value, false)];
      handleJobs := handleJobs + [job];
      assert Values(records) == old(Values(records))[id := job.View()];
    }

    method UseHandle(h: nat)
      requires Valid() && h < |handles|
      modifies this`handles
      ensures Valid() && View() == old(View()).(handles := old(handles)[h := old(handles)[h].(cleaned := true)])
    {
      handles := handles[h := handles[h].(cleaned := true)];
    }

    method ExpireRecord(job: DownloadJobRecord, now: int)
      requires Valid() && job.jobId in records && records[job.jobId] == job
      modifies job`artifact, job`status, job`updatedAt
      ensures Valid()
      ensures var w := old(View());
              View() == Q.Mark(w.(recs := w.recs[job.jobId := w.recs[job.jobId].(artifact := None)]), job.jobId, Q.Expired, now)
    {
      SetArtifact(job, None);
      MarkJob(job, Q.Expired, now);
    }

    /** The callback the HTTP boundary invokes when the file response ends. */
    method RunCallback(h: nat, now: int)
      requires Valid() && h < |handles|
      modifies this`handles, media`dirs, records.Values
      ensures Valid() && View() == Q.Deliver(old(View()), h, now)
    {
      if handles[h].cleaned {
        return;
      }
      var job := handleJobs[h];
      UseHandle(h);
      media.RunCleanup(handles[h].dir);
      ExpireRecord(job, now);
    }

    method SettleRecord(f: FlightId, job: DownloadJobRecord, now: int)
      requires Valid() && f in media.flights && media.flights[f].caller.QueueRun?
      requires job == runs[f]
      modifies media`dirs, job
      ensures Valid() && View() == Q.RunOutcome(old(View()), job.jobId, f, now)
    {
      if media.flights[f].phase.Threw? {
        if !job.status.Canceled? {
          MarkJob(job, Q.Failed, now);
        }
      } else if job.status.Canceled? {
        media.RunCleanup(f);
      } else {
        SetArtifact(job, Some(f));
        MarkJob(job, Q.Ready, now);
      }
    }

    /** `run` after its await, with its `finally`. */
    method ContinueRun(f: FlightId, now: int)
      requires Valid() && f in media.flights && media.flights[f].caller.QueueRun?
      requires !media.flights[f].phase.Downloading?
      modifies this`runningCount, this`drainScheduled, media`dirs, media`flights, records.Values
      ensures Valid() && View() == Q.RunSettles(old(View()), f, now)
    {
      SettleRecord(f, runs[f], now);
      FreeSlot(f);
    }

    method FreeSlot(f: FlightId)
      requires Valid()
      modifies this`runningCount, this`drainScheduled, media`flights
      ensures Valid()
      ensures View() == old(View()).(life := Land(old(View()).life, f), running := old(runningCount) - 1, drain := true)
    {
      media.LandFlight(f);
      runningCount := runningCount - 1;
      ScheduleDrain();
    }

    /** The microtask `scheduleDrain` queued. */
    method DrainTask(now: int)
      requires Valid()
      modifies this, media, records.Values
      ensures Valid() && View() == Q.DrainTask(cfg, old(View()), now) && records == old(records)
    {
      if drainScheduled {
        ClearFlag();
        Drain(now);
      }
    }

    method ClearFlag()
      requires Valid()
      modifies this`drainScheduled
      ensures Valid() && records == old(records) && View() == old(View()).(drain := false)
    {
      drainScheduled := false;
    }

    method Drain(now: int)
      requires Valid()
      modifies this, media, records.Values
      ensures Valid() && View() == Q.DrainLoop(cfg, old(View()), now) && records == old(records)
    {
      while runningCount < cfg.RunLimit() && |queue| > 0
        invariant Valid() && records == old(records)
        invariant Q.DrainLoop(cfg, View(), now) == Q.DrainLoop(cfg, old(View()), now)
        decreases |queue|
      {
        DrainOne(now);
      }
    }

    /** One turn of the loop: the head of the queue is taken and, if it is still queued, started. */
    method DrainOne(now: int)
      requires Valid() && runningCount < cfg.RunLimit() && |queue| > 0
      modifies this, media, records.Values
      ensures Valid() && records == old(records) && |queue| < |old(queue)|
      ensures Q.DrainLoop(cfg, View(), now) == Q.DrainLoop(cfg, old(View()), now)
    {
      var id := Shift();
      if id in jobs && jobs[id].status.Queued? {
        StartRun(id, now);
      }
    }

    method Shift() returns (id: JobId)
      requires Valid() && |queue| > 0
      modifies this`queue
      ensures Valid() && id == old(queue)[0] && View() == old(View()).(queue := old(queue)[1..])
    {
      id := queue[0];
      queue := queue[1..];
    }

    method StartRun(id: JobId, now: int)
      requires Valid() && id in jobs
      modifies this`runningCount, this`runs, this`started, media, jobs.Values
      ensures Valid() && View() == Q.Start(cfg, old(View()), id, now)
    {
      var job := jobs[id];
      CountRun(id);
      MarkJob(job, Q.Running, now);
      BeginRun(job);
    }

    method CountRun(id: JobId)
      requires Valid()
      modifies this`runningCount, this`started
      ensures Valid() && View() == old(View()).(running := old(runningCount) + 1, started := old(started) + [id])
    {
      runningCount := runningCount + 1;
      started := started + [id];
    }

    /** The synchronous part of `run`: the download begins and the continuation keeps the record. */
    method BeginRun(job: DownloadJobRecord)
      requires Valid() && job.jobId in records && records[job.jobId] == job
      modifies this`runs, media
      ensures Valid()
      ensures var l := old(View()).life;
              View() == old(View()).(life := Begin(l, cfg.SlotLimit(), cfg.AttemptOf(l.next, job.name), QueueRun(job.jobId)))
    {
      var f := media.Download(job.name, QueueRun(job.jobId));
      runs := runs[f := job];
      assert Values(records) == old(Values(records));
    }

    /** The sweep: walks the map, cleaning and deleting every finished record past its time to live. */
    method CleanupExpiredJobs(now: int, ttl: int) returns (count: nat)
      requires Valid()
      modifies this`jobs, media`dirs
      ensures Valid() && View() == Q.Sweep(old(View()), now, ttl)
      ensures count == |Q.Swept(old(View()), now, ttl)|
    {
      ghost var w := View();
      ghost var gone: set<JobId> := {};
      var remaining := jobs.Keys;
      count := 0;
      SweepNothing(w);
      while remaining != {}
        invariant Valid() && View() == Q.SweepSet(w, gone)
        invariant remaining <= jobs.Keys
        invariant SweepProgress(Q.Swept(w, now, ttl), gone, remaining, count)
        decreases remaining
      {
        var id :| id in remaining;
        SweepOneMore(w, gone, id, now, ttl);
        var removed := SweepRecord(id, now, ttl);
        SweepAdvances(Q.Swept(w, now, ttl), gone, remaining, id, count);
        remaining := remaining - {id};
        if removed {
          gone := gone + {id};
          count := count + 1;
        }
      }
      SweepEnds(Q.Swept(w, now, ttl), gone, count);
    }

    method SweepRecord(id: JobId, now: int, ttl: int) returns (removed: bool)
      requires Valid() && id in jobs
      modifies this`jobs, media`dirs
      ensures Valid() && removed == Q.Sweepable(old(View()), id, now, ttl)
      ensures jobs == if removed then old(jobs) - {id} else old(jobs)
      ensures View() == if removed then Q.SweepStep(old(View()), id) else old(View())
    {
      var job := jobs[id];
      assert View().recs[id] == job.View();
      if job.status.Queued? || job.status.Running? {
        return false;
      }
      if now - job.updatedAt < ttl {
        return false;
      }
      CleanArtifact(job);
      Forget(id);
      removed := true;
    }

    method Forget(id: JobId)
      requires Valid() && id in jobs
      modifies this`jobs
      ensures Valid() && View() == old(View()).(jobs := old(jobs.Keys) - {id}) && jobs == old(jobs) - {id}
    {
      jobs := jobs - {id};
    }

    /** `download` after its await, for whichever caller. */
    method ContinueDownload(f: FlightId, ok: bool)
      requires Valid() && f in media.flights && media.flights[f].phase.Downloading?
      modifies media
      ensures Valid() && View() == Q.DownloaderSettles(old(View()), f, ok)
    {
      media.Continue(f, ok);
    }
  }

  lemma SweepNothing(w: Q.World)
    ensures Q.SweepSet(w, {}) == w
  {
    assert Q.CleanAll(w.life, w.recs, {}).dirs == w.life.dirs;
  }

  /** The records still to visit, and those removed so far, against all that are due. */
  ghost predicate SweepProgress(due: set<JobId>, gone: set<JobId>, remaining: set<JobId>, count: nat) {
    && (forall id :: id in gone ==> id in due && id !in remaining)
    && (forall id :: id in due ==> id in gone || id in remaining)
    && count == |gone|
  }

  lemma SweepAdvances(due: set<JobId>, gone: set<JobId>, remaining: set<JobId>, id: JobId, count: nat)
    requires SweepProgress(due, gone, remaining, count) && id in remaining
    ensures id in due ==> SweepProgress(due, gone + {id}, remaining - {id}, count + 1)
    ensures id !in due ==> SweepProgress(due, gone, remaining - {id}, count)
  {
  }

  lemma SweepEnds(due: set<JobId>, gone: set<JobId>, count: nat)
    requires SweepProgress(due, gone, {}, count)
    ensures gone == due && count == |due|
  {
  }

  /** Sweeping one record more is cleaning its artifact and deleting it, and it is due as it was at the start. */
  lemma SweepOneMore(w: Q.World, gone: set<JobId>, id: JobId, now: int, ttl: int)
    requires id in w.recs && id !in gone && id in w.jobs
    ensures Q.SweepSet(w, gone + {id}) == Q.SweepStep(Q.SweepSet(w, gone), id)
    ensures Q.Sweepable(Q.SweepSet(w, gone), id, now, ttl) <==> id in Q.Swept(w, now, ttl)
  {
    var w1 := Q.SweepSet(w, gone);
    assert Q.CleanAll(w.life, w.recs, gone + {id}).dirs == Q.SweepStep(w1, id).life.dirs;
    assert w1.jobs - {id} == w.jobs - (gone + {id});
  }
}
