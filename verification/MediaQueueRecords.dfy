/**
 What a job's record says over runs: when it was last touched, when a sweep takes it, and what each
 request and each ending writes to it.
 */
module MediaQueueRecords {
  import opened Common
  import opened MediaLifecycle
  import opened MediaQueue
  import opened MediaQueueInvariants
  import F = FileNames
  import T = MediaQueueTheorems

  // ---- the sweep ----

  /** A sweep keeps exactly the jobs that are queued, running, or younger than the time to live; and it looks at all. */
  lemma SweepKeepsIff(w: World, now: int, ttl: int, id: JobId)
    requires id in w.jobs && id in w.recs
    ensures id in Sweep(w, now, ttl).jobs <==>
              w.recs[id].status == Queued || w.recs[id].status == Running || now - w.recs[id].updatedAt < ttl
    ensures Sweep(w, now, ttl).jobs <= w.jobs && Sweep(w, now, ttl).recs == w.recs
  {
  }

  /** It counts what it drops, and touches no directory but the artifacts of what it drops. */
  lemma SweepTouchesOnly(cfg: Config, w: World, now: int, ttl: int)
    requires Inv(cfg, w)
    ensures var w' := Sweep(w, now, ttl);
            && |Swept(w, now, ttl)| + |w'.jobs| == |w.jobs|
            && w'.life.dirs.Keys == w.life.dirs.Keys
            && (forall id :: id in w'.jobs && id in w.recs && w.recs[id].artifact.Some? ==>
                  w'.life.dirs[w.recs[id].artifact.value] == w.life.dirs[w.recs[id].artifact.value])
            && (forall d :: d in w.life.dirs && (forall id :: id in w.jobs && id in w.recs ==> w.recs[id].artifact != Some(d)) ==>
                  w'.life.dirs[d] == w.life.dirs[d])
            && (forall d :: d in w.life.dirs && w'.life.dirs[d] != w.life.dirs[d] ==>
                  !w.life.dirs[d].cleaned && w'.life.dirs[d] == WorkDir(true, 1))
            && w' == w.(jobs := w'.jobs, life := w.life.(dirs := w'.life.dirs))
  {
    var gone := Swept(w, now, ttl);
    assert gone <= w.jobs;
    assert w.jobs == (w.jobs - gone) + gone;
  }

  // ---- times ----

  /** The clock reading a turn makes, if it makes one. */
  function TimeOf(e: Event): int {
    match e
    case ECreate(_, _, now) => now
    case ECancel(_, now) => now
    case EDeliver(_, now) => now
    case ESweep(now, _) => now
    case EDrain(now) => now
    case ERun(_, now) => now
    case _ => 0
  }

  /** The turn is a repeated cancel of a canceled job: it changes no status but renews the time. */
  predicate CanceledAgain(w: World, e: Event, id: JobId) {
    e.ECancel? && e.id == id && Known(w, id) && w.recs[id].status == Canceled
  }

  /** A turn changed the record: its status, or by canceling it again. */
  predicate Touches(w: World, w': World, e: Event, id: JobId)
    requires id in w.recs && id in w'.recs
  {
    w'.recs[id].status != w.recs[id].status || CanceledAgain(w, e, id)
  }

  /** The record after one turn: stamped with the turn's time exactly if the turn touched it. */
  ghost predicate Stamped(w: World, w': World, e: Event, id: JobId) {
    id in w.recs ==>
      && id in w'.recs
      && w'.recs[id].createdAt == w.recs[id].createdAt && w'.recs[id].name == w.recs[id].name
      && w'.recs[id].updatedAt == if Touches(w, w', e, id) then TimeOf(e) else w.recs[id].updatedAt
  }

  lemma StartStamps(cfg: Config, w: World, id: JobId, now: int, j: JobId)
    requires Startable(w, id)
    ensures Stamped(w, Start(cfg, w, id, now), EDrain(now), j)
  {
  }

  lemma {:induction false} DrainStamps(cfg: Config, w: World, now: int, j: JobId)
    requires j in w.recs
    ensures Stamped(w, DrainLoop(cfg, w, now), EDrain(now), j)
    ensures j in DrainLoop(cfg, w, now).recs
    ensures w.recs[j].status != Queued ==> DrainLoop(cfg, w, now).recs[j] == w.recs[j]
    decreases |w.queue|
  {
    if w.running < cfg.RunLimit() && |w.queue| > 0 {
      var w1 := w.(queue := w.queue[1..]);
      if Startable(w1, w.queue[0]) {
        StartStamps(cfg, w1, w.queue[0], now, j);
        DrainStamps(cfg, Start(cfg, w1, w.queue[0], now), now, j);
      } else {
        DrainStamps(cfg, w1, now, j);
      }
    }
  }

  lemma RunStamps(cfg: Config, w: World, f: FlightId, now: int, j: JobId)
    requires RunInv(cfg, w)
    ensures Stamped(w, RunSettles(w, f, now), ERun(f, now), j)
  {
    if Settling(w, f) {
      assert IsRunOf(w, f, w.life.flights[f].caller.job);
    }
  }

  lemma DeliverStamps(cfg: Config, w: World, h: nat, now: int, j: JobId)
    requires ArtifactInv(cfg, w) && HandleInv(cfg, w)
    ensures Stamped(w, Deliver(w, h, now), EDeliver(h, now), j)
  {
    if h < |w.handles| && !w.handles[h].cleaned {
      assert w.recs[w.handles[h].job].artifact == Some(w.handles[h].dir);
    }
  }

  lemma CancelStamps(w: World, id: JobId, now: int, j: JobId)
    ensures Stamped(w, Cancel(w, id, now), ECancel(id, now), j)
  {
  }

  /** The other turns touch no status and no time. */
  lemma QuietStamps(cfg: Config, w: World, e: Event, j: JobId)
    requires e.ECreate? || e.EConsume? || e.ESweep? || e.EDownloader? || e.EDirectCall? || e.EDirectDelivered?
    ensures Stamped(w, Step(cfg, w, e), e, j)
  {
  }

  lemma DrainTaskStamps(cfg: Config, w: World, now: int, j: JobId)
    ensures Stamped(w, DrainTask(cfg, w, now), EDrain(now), j)
  {
    if w.drain && j in w.recs { DrainStamps(cfg, w.(drain := false), now, j); }
  }

  lemma StepStamps(cfg: Config, w: World, e: Event, j: JobId)
    requires Inv(cfg, w)
    ensures Stamped(w, Step(cfg, w, e), e, j)
  {
    if e.ECancel? {
      CancelStamps(w, e.id, e.now, j);
    } else if e.EDeliver? {
      DeliverStamps(cfg, w, e.h, e.now, j);
    } else if e.EDrain? {
      DrainTaskStamps(cfg, w, e.now, j);
    } else if e.ERun? {
      RunStamps(cfg, w, e.f, e.now, j);
    } else {
      QuietStamps(cfg, w, e, j);
    }
  }

  lemma CreateStamps(cfg: Config, w: World, e: Event, j: JobId)
    requires j !in w.recs && j in Step(cfg, w, e).recs
    ensures e.ECreate? && e.id == j && Step(cfg, w, e).recs[j] == Rec(e.name, Queued, e.now, e.now, None, false, false)
  {
    if e.EDrain? && w.drain { DrainAddsNone(cfg, w.(drain := false), e.now); }
  }

  lemma {:induction false} DrainAddsNone(cfg: Config, w: World, now: int)
    ensures DrainLoop(cfg, w, now).recs.Keys == w.recs.Keys
    decreases |w.queue|
  {
    if w.running < cfg.RunLimit() && |w.queue| > 0 {
      var w1 := w.(queue := w.queue[1..]);
      DrainAddsNone(cfg, if Startable(w1, w.queue[0]) then Start(cfg, w1, w.queue[0], now) else w1, now);
    }
  }

  /** The time of the last turn of a run that created the job, changed its status, or canceled it once more. */
  function LastTouched(cfg: Config, es: seq<Event>, id: JobId): int {
    if es == [] then 0
    else
      var e := es[|es| - 1];
      var w, w' := T.Reached(cfg, es[..|es| - 1]), T.Reached(cfg, es);
      if id in w.recs && id in w'.recs && !Touches(w, w', e, id) then LastTouched(cfg, es[..|es| - 1], id) else TimeOf(e)
  }

  lemma ReachedSnoc(cfg: Config, es: seq<Event>)
    requires es != []
    ensures T.Reached(cfg, es) == Step(cfg, T.Reached(cfg, es[..|es| - 1]), es[|es| - 1])
  {
    var n := |es| - 1;
    assert es == es[..n] + [es[n]];
    T.AfterConcat(cfg, EMPTY_WORLD, es[..n], [es[n]]);
    assert [es[n]][1..] == [];
    assert After(cfg, Step(cfg, T.Reached(cfg, es[..n]), es[n]), []) == Step(cfg, T.Reached(cfg, es[..n]), es[n]);
  }

  /** Over every run, `updatedAt` is that time: the age a sweep sees is the time since the job's status last changed. */
  lemma {:induction false} UpdatedAtIsLastTouch(cfg: Config, es: seq<Event>, id: JobId)
    requires id in T.Reached(cfg, es).recs
    ensures T.Reached(cfg, es).recs[id].updatedAt == LastTouched(cfg, es, id)
    decreases |es|
  {
    assert es != [];
    var n := |es| - 1;
    var w := T.Reached(cfg, es[..n]);
    ReachedSnoc(cfg, es);
    T.ReachedInv(cfg, es[..n]);
    if id in w.recs {
      UpdatedAtIsLastTouch(cfg, es[..n], id);
      StepStamps(cfg, w, es[n], id);
    } else {
      CreateStamps(cfg, w, es[n], id);
    }
  }

  // ---- requests ----

  /** Creating a job is accepted exactly below the queue limit, 20 unless configured, and puts it at the end of the queue. */
  lemma CreateIff(cfg: Config, w: World, id: JobId, name: F.Text, now: int)
    requires id !in w.recs
    ensures var w' := Create(cfg, w, id, name, now);
            var limit := if cfg.queueLimit.Some? then cfg.queueLimit.value else 20;
            && (id in w'.recs <==> |w.queue| < limit)
            && (|w.queue| >= limit ==> w' == w)
            && (|w.queue| < limit ==>
                  && w'.recs == w.recs[id := Rec(name, Queued, now, now, None, false, false)]
                  && w'.jobs == w.jobs + {id} && w'.queue == w.queue + [id] && w'.drain
                  && w'.life == w.life && w'.running == w.running && w'.handles == w.handles)
  {
  }

  lemma QueueStep(cfg: Config, w: World, e: Event)
    requires |w.queue| <= cfg.QueueLimit()
    ensures |Step(cfg, w, e).queue| <= cfg.QueueLimit()
  {
    if e.EDrain? && w.drain {
      DrainShortens(cfg, w.(drain := false), e.now);
    } else if e.ECancel? {
      RemoveShortens(w.queue, e.id);
    }
  }

  lemma {:induction false} RemoveShortens(s: seq<JobId>, id: JobId)
    ensures |RemoveFirst(s, id)| <= |s|
  {
    if s != [] { RemoveShortens(s[1..], id); }
  }

  lemma {:induction false} DrainShortens(cfg: Config, w: World, now: int)
    ensures |DrainLoop(cfg, w, now).queue| <= |w.queue|
    decreases |w.queue|
  {
    if w.running < cfg.RunLimit() && |w.queue| > 0 {
      var w1 := w.(queue := w.queue[1..]);
      DrainShortens(cfg, if Startable(w1, w.queue[0]) then Start(cfg, w1, w.queue[0], now) else w1, now);
    }
  }

  /** Over every run: at most as many jobs wait and run as configured, 20 and 1 by default. */
  lemma {:induction false} DefaultLimits(cfg: Config, es: seq<Event>)
    ensures var w := T.Reached(cfg, es);
            && |w.queue| <= (if cfg.queueLimit.Some? then cfg.queueLimit.value else 20)
            && |RunFlights(w)| <= (if cfg.concurrencyLimit.Some? then cfg.concurrencyLimit.value else 1)
    decreases |es|
  {
    T.LimitsHold(cfg, es);
    if es != [] {
      DefaultLimits(cfg, es[..|es| - 1]);
      ReachedSnoc(cfg, es);
      QueueStep(cfg, T.Reached(cfg, es[..|es| - 1]), es[|es| - 1]);
    }
  }

  /** What consuming answers, for every status: which error, or the directory of a ready job not yet handed out. */
  lemma ConsumeAnswers(cfg: Config, es: seq<Event>, id: JobId)
    ensures var w := T.Reached(cfg, es);
            var r := ConsumeResult(w, id);
            && (r == Err(NotFound) <==> id !in w.jobs)
            && (r == Err(NotReady) <==> Known(w, id) && w.recs[id].status in {Queued, Running})
            && (r == Err(JobFailed) <==> Known(w, id) && w.recs[id].status == Failed)
            && (r == Err(JobCanceled) <==> Known(w, id) && w.recs[id].status == Canceled)
            && (r == Err(Unavailable) <==>
                  Known(w, id) && (w.recs[id].status == Expired || (w.recs[id].status == Ready && w.recs[id].consumed)))
            && (r.Ok? <==> Known(w, id) && w.recs[id].status == Ready && !w.recs[id].consumed)
            && (r.Ok? ==>
                  && w.recs[id].artifact == Some(r.value)
                  && Consume(w, id) == w.(recs := w.recs[id := w.recs[id].(consumed := true)],
                                          handles := w.handles + [Handle(id, r.value, false)]))
            && (r.Err? ==> Consume(w, id) == w)
  {
    T.ReachedInv(cfg, es);
  }

  lemma {:induction false} RemoveFirstKeepsOthers(s: seq<JobId>, id: JobId, j: JobId)
    requires Distinct(s)
    ensures j in RemoveFirst(s, id) <==> j in s && j != id
  {
    if s != [] && s[0] != id {
      DistinctTail(s);
      RemoveFirstKeepsOthers(s[1..], id, j);
      assert s == [s[0]] + s[1..];
    } else if s != [] {
      assert s == [s[0]] + s[1..];
    }
  }

  lemma DistinctTail(s: seq<JobId>)
    requires Distinct(s) && s != []
    ensures Distinct(s[1..])
  {
  }

  /** What a cancel does: nothing to an unknown, failed or expired job; else it is canceled, out of the queue, and let go of. */
  lemma CancelDoes(cfg: Config, es: seq<Event>, id: JobId, now: int)
    ensures var w := T.Reached(cfg, es);
            var w' := Cancel(w, id, now);
            && (!Known(w, id) || w.recs[id].status in {Failed, Expired} ==> w' == w)
            && (Known(w, id) && w.recs[id].status !in {Failed, Expired} ==>
                  && w'.recs[id].status == Canceled && w'.recs[id].updatedAt == now
                  && (w'.recs[id].aborted <==> w.recs[id].aborted || w.recs[id].status == Running)
                  && w'.recs[id].artifact == (if w.recs[id].status == Ready && !w.recs[id].consumed then None
                                              else w.recs[id].artifact)
                  && (forall j :: j in w'.queue <==> j in w.queue && j != id))
            && (forall d :: d in w.life.dirs && w'.life.dirs[d] != w.life.dirs[d] ==>
                  Known(w, id) && w.recs[id].status == Ready && !w.recs[id].consumed && w.recs[id].artifact == Some(d))
            && (Known(w, id) && w.recs[id].status == Ready && !w.recs[id].consumed ==>
                  w.recs[id].artifact.Some? && !Unremoved(w'.life, w.recs[id].artifact.value))
  {
    var w := T.Reached(cfg, es);
    T.ReachedInv(cfg, es);
    forall j ensures j in RemoveFirst(w.queue, id) <==> j in w.queue && j != id {
      RemoveFirstKeepsOthers(w.queue, id, j);
    }
  }

  // ---- endings ----

  /** How a run ends: failed, ready with its own directory, or canceled with its directory removed. */
  lemma RunEnds(cfg: Config, es: seq<Event>, f: FlightId, id: JobId, now: int)
    requires IsRunOf(T.Reached(cfg, es), f, id) && !T.Reached(cfg, es).life.flights[f].phase.Downloading?
    ensures var w := T.Reached(cfg, es);
            var w' := RunSettles(w, f, now);
            var threw := w.life.flights[f].phase.Threw?;
            && id in w'.recs && f !in w'.life.flights && w'.running == w.running - 1 && w'.drain
            && w'.recs[id].status
               == (if w.recs[id].status == Canceled then Canceled else if threw then Failed else Ready)
            && w'.recs[id].artifact == (if w.recs[id].status == Canceled || threw then None else Some(f))
            && (!threw ==> (Unremoved(w'.life, f) <==> w.recs[id].status != Canceled))
  {
    T.ReachedInv(cfg, es);
  }

  /** A finished delivery removes the directory and expires the job, once. */
  lemma DeliveryEnds(cfg: Config, es: seq<Event>, h: nat, now: int)
    requires h < |T.Reached(cfg, es).handles|
    ensures var w := T.Reached(cfg, es);
            var x := w.handles[h];
            var w' := Deliver(w, h, now);
            && x.job in w'.recs && w'.recs[x.job].status == (if x.cleaned then w.recs[x.job].status else Expired)
            && w'.recs[x.job].artifact.None? && !Unremoved(w'.life, x.dir) && w'.handles[h].cleaned
            && (x.cleaned ==> w' == w) && w'.jobs == w.jobs && w'.queue == w.queue
  {
    T.ReachedInv(cfg, es);
  }

  /** A download that ends well keeps its directory for its caller; one that fails has removed it; either frees its slot. */
  lemma DownloaderEnds(cfg: Config, es: seq<Event>, f: FlightId, ok: bool)
    requires Awaiting(T.Reached(cfg, es), f)
    ensures var w := T.Reached(cfg, es);
            var w' := DownloaderSettles(w, f, ok);
            && f in w'.life.flights && w'.life.flights[f].caller == w.life.flights[f].caller
            && w'.life.flights[f].phase == (if ok then Returned else Threw(DownloaderFailed))
            && (Unremoved(w'.life, f) <==> ok) && w'.life.active == w.life.active - 1
            && w'.recs == w.recs && w'.queue == w.queue
  {
    T.ReachedInv(cfg, es);
  }

  /** A direct response ends: its call is over and its directory, if the download gave one, removed. */
  lemma DirectEnds(cfg: Config, es: seq<Event>, f: FlightId)
    requires DirectSettled(T.Reached(cfg, es), f)
    ensures var w := T.Reached(cfg, es);
            var w' := DirectDelivered(w, f);
            && f !in w'.life.flights && w'.recs == w.recs
            && (w.life.flights[f].phase.Returned? ==> Unremoved(w.life, f) && !Unremoved(w'.life, f))
            && (w.life.flights[f].phase.Threw? ==> w'.life.dirs == w.life.dirs)
  {
    T.ReachedInv(cfg, es);
  }
}
