/**
 What every reachable World of the download queue satisfies, group by group.
 */
module MediaQueueInvariants {
  import opened Common
  import opened MediaLifecycle
  import opened MediaQueue
  import F = FileNames

  /** The queue is exactly the queued records, each once, and live records stay in the map. */
  ghost predicate QueueInv(w: World) {
    && w.jobs <= w.recs.Keys
    && Distinct(w.queue)
    && (forall id :: id in w.queue <==> id in w.recs && w.recs[id].status.Queued?)
    && (forall id :: id in w.recs && (w.recs[id].status.Queued? || w.recs[id].status.Running?) ==> id in w.jobs)
  }

  /** Started runs followed by the queue are the created jobs in order, minus those canceled while queued. */
  ghost predicate HistoryInv(w: World) {
    && w.started + w.queue == Without(w.created, w.dropped)
    && Distinct(w.created)
    && (forall id :: id in w.created <==> id in w.recs)
    && w.dropped <= w.recs.Keys
    && (forall id :: id in w.started ==> id in w.recs && !w.recs[id].status.Queued?)
  }

  function RunFlights(w: World): set<FlightId> {
    set f | f in w.life.flights && w.life.flights[f].caller.QueueRun?
  }

  predicate IsRunOf(w: World, f: FlightId, id: JobId) {
    f in w.life.flights && w.life.flights[f].caller == QueueRun(id)
  }

  /** `runningCount` counts the in-flight runs, and runs and running records correspond one to one. */
  ghost predicate RunInv(cfg: Config, w: World) {
    && (forall f :: f in w.life.flights ==> f < w.life.next)
    && w.running == |RunFlights(w)|
    && w.running <= cfg.RunLimit()
    && (forall f, id :: IsRunOf(w, f, id) ==>
          id in w.recs && (w.recs[id].status.Running? || (w.recs[id].status.Canceled? && w.recs[id].aborted)))
    && (forall f, g, id :: IsRunOf(w, f, id) && IsRunOf(w, g, id) ==> f == g)
    && (forall id :: id in w.recs && w.recs[id].status.Running? ==> exists f :: IsRunOf(w, f, id))
  }

  /** No lost wakeup. */
  ghost predicate WakeInv(cfg: Config, w: World) {
    |w.queue| > 0 && w.running < cfg.RunLimit() ==> w.drain
  }

  /** A record in the service's map that still refers to directory `d`. */
  predicate HeldByJob(w: World, id: JobId, d: FlightId) {
    id in w.jobs && id in w.recs && w.recs[id].artifact == Some(d)
  }

  /** Every artifact a record refers to is its own, and is cleaned exactly once the record has left the map. */
  ghost predicate ArtifactInv(cfg: Config, w: World) {
    && (forall id :: id in w.recs && w.recs[id].artifact.Some? ==>
          var d := w.recs[id].artifact.value;
          && d in w.life.dirs && d !in w.life.flights && SetupAt(w.life, d) == SetupOk
          && (w.recs[id].status.Ready? || (w.recs[id].status.Canceled? && w.recs[id].consumed))
          && (w.life.dirs[d].cleaned <==> id !in w.jobs))
    && (forall i, j :: i in w.recs && j in w.recs && i != j && w.recs[i].artifact.Some? ==>
          w.recs[i].artifact != w.recs[j].artifact)
    && (forall id :: id in w.recs && w.recs[id].status.Ready? ==> w.recs[id].artifact.Some?)
    && (forall id :: id in w.recs && w.recs[id].aborted ==> w.recs[id].status.Canceled? && w.recs[id].artifact.None?)
  }

  /** No leak: an unremoved directory is owned by a flight, held by a job, or was orphaned by its setup. */
  ghost predicate HolderInv(cfg: Config, w: World) {
    forall d :: d in w.life.dirs && !w.life.dirs[d].cleaned && SetupAt(w.life, d) == SetupOk ==>
      OwnedByFlight(w.life, d) || exists id :: HeldByJob(w, id, d)
  }

  /** Response callbacks: one per consumed job, still tied to that job's directory until it runs. */
  ghost predicate HandleInv(cfg: Config, w: World) {
    && (forall h :: 0 <= h < |w.handles| ==>
          var x := w.handles[h];
          && x.job in w.recs && w.recs[x.job].consumed
          && x.dir in w.life.dirs && x.dir !in w.life.flights && SetupAt(w.life, x.dir) == SetupOk
          && (if x.cleaned then w.recs[x.job].artifact.None? && w.recs[x.job].status.Expired? && w.life.dirs[x.dir].cleaned
              else w.recs[x.job].artifact == Some(x.dir)))
    && (forall h, k :: 0 <= h < k < |w.handles| ==> w.handles[h].job != w.handles[k].job)
  }

  /** Queueing, history, runs and wakeups. */
  ghost predicate ControlInv(cfg: Config, w: World) {
    QueueInv(w) && HistoryInv(w) && RunInv(cfg, w) && WakeInv(cfg, w)
  }

  /** Slots, directories, artifacts and response callbacks. */
  ghost predicate StorageInv(cfg: Config, w: World) {
    && LifecycleInv(w.life, cfg.SlotLimit())
    && ArtifactInv(cfg, w)
    && HolderInv(cfg, w)
    && HandleInv(cfg, w)
  }

  ghost predicate Inv(cfg: Config, w: World) {
    ControlInv(cfg, w) && StorageInv(cfg, w)
  }

  lemma EmptyInv(cfg: Config)
    ensures Inv(cfg, EMPTY_WORLD)
  {
    assert RunFlights(EMPTY_WORLD) == {};
    assert InPhaseDownloading(EMPTY_LIFECYCLE) == {};
  }

  // ---- steps that leave the queueing side alone ----

  /** Neither the queue, nor a run, nor which records are queued or running differs. */
  ghost predicate SameControl(w: World, w': World) {
    && w'.jobs == w.jobs && w'.queue == w.queue && w'.running == w.running && w'.drain == w.drain
    && w'.created == w.created && w'.started == w.started && w'.dropped == w.dropped
    && w'.life.flights == w.life.flights && w'.life.next == w.life.next
    && w'.recs.Keys == w.recs.Keys
    && (forall id :: id in w.recs ==>
          && (w'.recs[id].status.Queued? <==> w.recs[id].status.Queued?)
          && (w'.recs[id].status.Running? <==> w.recs[id].status.Running?)
          && (w.recs[id].status.Canceled? && w.recs[id].aborted ==>
                w'.recs[id].status.Canceled? && w'.recs[id].aborted))
  }

  lemma SameControlKeepsRuns(cfg: Config, w: World, w': World)
    requires RunInv(cfg, w) && SameControl(w, w')
    ensures RunInv(cfg, w')
  {
    assert RunFlights(w') == RunFlights(w);
    assert forall f, id :: IsRunOf(w', f, id) <==> IsRunOf(w, f, id);
  }

  lemma SameControlKeeps(cfg: Config, w: World, w': World)
    requires ControlInv(cfg, w) && SameControl(w, w')
    ensures ControlInv(cfg, w')
  {
    SameControlKeepsRuns(cfg, w, w');
  }

  // ---- create ----

  lemma CreateKeepsControl(cfg: Config, w: World, id: JobId, name: F.Text, now: int)
    requires ControlInv(cfg, w) && id !in w.recs
    ensures ControlInv(cfg, Create(cfg, w, id, name, now))
  {
    if !QueueFull(cfg, w) {
      var w' := Create(cfg, w, id, name, now);
      WithoutAppend(w.created, id, w.dropped);
      assert w'.started + w'.queue == (w.started + w.queue) + [id];
      assert RunFlights(w') == RunFlights(w);
      assert forall f, j :: IsRunOf(w', f, j) <==> IsRunOf(w, f, j);
    }
  }

  lemma CreateKeepsStorage(cfg: Config, w: World, id: JobId, name: F.Text, now: int)
    requires StorageInv(cfg, w) && id !in w.recs
    ensures StorageInv(cfg, Create(cfg, w, id, name, now))
  {
    var w' := Create(cfg, w, id, name, now);
    assert forall d, j :: HeldByJob(w, j, d) ==> HeldByJob(w', j, d);
  }

  // ---- cancel ----

  lemma CancelQueuedQueue(w: World, id: JobId)
    requires Distinct(w.queue)
    ensures RemoveFirst(w.queue, id) == Without(w.queue, {id})
    ensures Distinct(RemoveFirst(w.queue, id))
    ensures forall j :: j in RemoveFirst(w.queue, id) <==> j in w.queue && j != id
  {
    RemoveFirstIsWithout(w.queue, id);
    WithoutDistinct(w.queue, {id});
    forall j ensures j in RemoveFirst(w.queue, id) <==> j in w.queue && j != id { WithoutMember(w.queue, {id}, j); }
  }

  lemma CancelQueuedHistory(w: World, id: JobId, now: int)
    requires QueueInv(w) && HistoryInv(w) && Known(w, id) && w.recs[id].status.Queued?
    ensures HistoryInv(Cancel(w, id, now))
  {
    CancelQueuedQueue(w, id);
    WithoutMore(w.created, w.dropped, id);
    WithoutConcat(w.started, w.queue, {id});
    WithoutAbsent(w.started, {id});
  }

  lemma CancelQueuedControl(cfg: Config, w: World, id: JobId, now: int)
    requires ControlInv(cfg, w) && Known(w, id) && w.recs[id].status.Queued?
    ensures ControlInv(cfg, Cancel(w, id, now))
  {
    var w' := Cancel(w, id, now);
    CancelQueuedQueue(w, id);
    CancelQueuedHistory(w, id, now);
    assert RunFlights(w') == RunFlights(w);
    assert forall f, j :: IsRunOf(w', f, j) <==> IsRunOf(w, f, j);
  }

  lemma CancelRunningRuns(cfg: Config, w: World, id: JobId, now: int)
    requires RunInv(cfg, w) && Known(w, id) && w.recs[id].status.Running?
    ensures RunInv(cfg, Cancel(w, id, now))
  {
    var w' := Cancel(w, id, now);
    assert RunFlights(w') == RunFlights(w);
    assert forall f, j :: IsRunOf(w', f, j) <==> IsRunOf(w, f, j);
  }

  lemma CancelRunningControl(cfg: Config, w: World, id: JobId, now: int)
    requires ControlInv(cfg, w) && Known(w, id) && w.recs[id].status.Running?
    ensures ControlInv(cfg, Cancel(w, id, now))
  {
    CancelRunningRuns(cfg, w, id, now);
  }

  lemma CancelSameControl(w: World, id: JobId, now: int)
    requires id in w.recs && !w.recs[id].status.Queued? && !w.recs[id].status.Running?
    ensures SameControl(w, Cancel(w, id, now))
  {
  }

  lemma CancelKeepsControl(cfg: Config, w: World, id: JobId, now: int)
    requires ControlInv(cfg, w)
    ensures ControlInv(cfg, Cancel(w, id, now))
  {
    var w' := Cancel(w, id, now);
    if w' != w {
      if w.recs[id].status.Queued? {
        CancelQueuedControl(cfg, w, id, now);
      } else if w.recs[id].status.Running? {
        CancelRunningControl(cfg, w, id, now);
      } else {
        CancelSameControl(w, id, now);
        SameControlKeeps(cfg, w, w');
      }
    }
  }

  /** One record's status changes; directories, flights, map, callbacks and artifacts do not. */
  ghost predicate Remarked(w: World, w': World, id: JobId) {
    && w'.life == w.life && w'.handles == w.handles && w'.jobs == w.jobs
    && id in w.recs && w'.recs.Keys == w.recs.Keys
    && (forall j :: j in w.recs && j != id ==> w'.recs[j] == w.recs[j])
    && w'.recs[id].artifact == w.recs[id].artifact && w'.recs[id].consumed == w.recs[id].consumed
  }

  lemma RemarkKeepsArtifacts(cfg: Config, w: World, w': World, id: JobId)
    requires ArtifactInv(cfg, w) && Remarked(w, w', id)
    requires w'.recs[id].aborted ==> w'.recs[id].status.Canceled? && w'.recs[id].artifact.None?
    requires w.recs[id].artifact.Some? ==> w'.recs[id].status.Canceled? && w.recs[id].consumed
    requires w.recs[id].artifact.None? ==> !w'.recs[id].status.Ready?
    ensures ArtifactInv(cfg, w')
  {
  }

  lemma RemarkKeepsRest(cfg: Config, w: World, w': World, id: JobId)
    requires HolderInv(cfg, w) && HandleInv(cfg, w) && Remarked(w, w', id)
    requires !w.recs[id].status.Expired?
    ensures HolderInv(cfg, w') && HandleInv(cfg, w')
  {
    assert forall d, j :: HeldByJob(w, j, d) ==> HeldByJob(w', j, d);
  }

  lemma DropArtifactHolders(cfg: Config, w: World, w': World, id: JobId, d: FlightId)
    requires HolderInv(cfg, w) && ArtifactInv(cfg, w)
    requires id in w.recs && w.recs[id].artifact == Some(d)
    requires w'.life == Cleanup(w.life, d) && w'.jobs == w.jobs
    requires w'.recs.Keys == w.recs.Keys
    requires forall j :: j in w.recs && j != id ==> w'.recs[j] == w.recs[j]
    ensures HolderInv(cfg, w')
  {
    forall e | e in w'.life.dirs && !w'.life.dirs[e].cleaned && SetupAt(w'.life, e) == SetupOk && !OwnedByFlight(w'.life, e)
      ensures exists j :: HeldByJob(w', j, e)
    {
      assert e != d && !OwnedByFlight(w.life, e);
      var j :| HeldByJob(w, j, e);
      assert HeldByJob(w', j, e);
    }
  }

  lemma CancelReadyArtifacts(cfg: Config, w: World, id: JobId, now: int)
    requires ArtifactInv(cfg, w) && Known(w, id) && w.recs[id].status.Ready? && !w.recs[id].consumed
    ensures ArtifactInv(cfg, Cancel(w, id, now))
  {
    var w' := Cancel(w, id, now);
    assert w'.recs[id].artifact.None? && w'.recs[id].status.Canceled?;
    assert forall j :: j in w.recs && j != id ==> w'.recs[j] == w.recs[j];
  }

  lemma CancelReadyHandles(cfg: Config, w: World, id: JobId, now: int)
    requires HandleInv(cfg, w) && Known(w, id) && w.recs[id].status.Ready? && !w.recs[id].consumed
    ensures HandleInv(cfg, Cancel(w, id, now))
  {
    var w' := Cancel(w, id, now);
    assert forall h :: 0 <= h < |w.handles| ==> w.handles[h].job != id;
  }

  lemma CancelReadyStorage(cfg: Config, w: World, id: JobId, now: int)
    requires StorageInv(cfg, w) && Known(w, id) && w.recs[id].status.Ready? && !w.recs[id].consumed
    ensures StorageInv(cfg, Cancel(w, id, now))
  {
    CancelReadyArtifacts(cfg, w, id, now);
    CancelReadyHandles(cfg, w, id, now);
    var w' := Cancel(w, id, now);
    var d := w.recs[id].artifact.value;
    CleanupKeeps(w.life, d, cfg.SlotLimit());
    DropArtifactHolders(cfg, w, w', id, d);
  }

  lemma CancelKeepsStorage(cfg: Config, w: World, id: JobId, now: int)
    requires StorageInv(cfg, w)
    ensures StorageInv(cfg, Cancel(w, id, now))
  {
    var w' := Cancel(w, id, now);
    if w' != w {
      if w.recs[id].status.Ready? && !w.recs[id].consumed {
        CancelReadyStorage(cfg, w, id, now);
      } else {
        assert w'.recs[id].status.Canceled? && Remarked(w, w', id);
        RemarkKeepsArtifacts(cfg, w, w', id);
        RemarkKeepsRest(cfg, w, w', id);
      }
    }
  }

  // ---- consume and deliver ----

  lemma ConsumeKeepsControl(cfg: Config, w: World, id: JobId)
    requires ControlInv(cfg, w)
    ensures ControlInv(cfg, Consume(w, id))
  {
    SameControlKeeps(cfg, w, Consume(w, id));
  }

  lemma ConsumeKeepsHandles(cfg: Config, w: World, id: JobId)
    requires HandleInv(cfg, w) && ArtifactInv(cfg, w) && ConsumeResult(w, id).Ok?
    ensures HandleInv(cfg, Consume(w, id))
  {
    var w' := Consume(w, id);
    forall h | 0 <= h < |w.handles|
      ensures w'.handles[h] == w.handles[h] && w.handles[h].job != id
    {
    }
  }

  lemma ConsumeKeepsStorage(cfg: Config, w: World, id: JobId)
    requires StorageInv(cfg, w)
    ensures StorageInv(cfg, Consume(w, id))
  {
    if ConsumeResult(w, id).Ok? {
      var w' := Consume(w, id);
      ConsumeKeepsHandles(cfg, w, id);
      assert forall d, j :: HeldByJob(w, j, d) ==> HeldByJob(w', j, d);
    }
  }

  lemma DeliverSameControl(cfg: Config, w: World, h: nat, now: int)
    requires HandleInv(cfg, w) && ArtifactInv(cfg, w)
    ensures SameControl(w, Deliver(w, h, now))
  {
  }

  lemma DeliverKeepsControl(cfg: Config, w: World, h: nat, now: int)
    requires ControlInv(cfg, w) && StorageInv(cfg, w)
    ensures ControlInv(cfg, Deliver(w, h, now))
  {
    DeliverSameControl(cfg, w, h, now);
    SameControlKeeps(cfg, w, Deliver(w, h, now));
  }

  lemma DeliverKeepsHandles(cfg: Config, w: World, h: nat, now: int)
    requires HandleInv(cfg, w) && ArtifactInv(cfg, w)
    ensures HandleInv(cfg, Deliver(w, h, now))
  {
  }

  lemma DeliverKeepsArtifacts(cfg: Config, w: World, h: nat, now: int)
    requires HandleInv(cfg, w) && ArtifactInv(cfg, w)
    ensures ArtifactInv(cfg, Deliver(w, h, now))
  {
  }

  lemma DeliverKeepsStorage(cfg: Config, w: World, h: nat, now: int)
    requires StorageInv(cfg, w)
    ensures StorageInv(cfg, Deliver(w, h, now))
  {
    var w' := Deliver(w, h, now);
    if w' != w {
      var x := w.handles[h];
      DeliverKeepsHandles(cfg, w, h, now);
      DeliverKeepsArtifacts(cfg, w, h, now);
      CleanupKeeps(w.life, x.dir, cfg.SlotLimit());
      DropArtifactHolders(cfg, w, w', x.job, x.dir);
    }
  }

  // ---- sweep ----

  lemma SweepKeepsControl(cfg: Config, w: World, now: int, ttl: int)
    requires ControlInv(cfg, w)
    ensures ControlInv(cfg, Sweep(w, now, ttl))
  {
    var w' := Sweep(w, now, ttl);
    assert RunFlights(w') == RunFlights(w);
    assert forall f, j :: IsRunOf(w', f, j) <==> IsRunOf(w, f, j);
  }

  lemma SweepKeepsLife(cfg: Config, w: World, now: int, ttl: int)
    requires LifecycleInv(w.life, cfg.SlotLimit()) && ArtifactInv(cfg, w)
    ensures LifecycleInv(Sweep(w, now, ttl).life, cfg.SlotLimit())
  {
    var l, l' := w.life, Sweep(w, now, ttl).life;
    assert InPhaseDownloading(l') == InPhaseDownloading(l);
    assert forall f :: OwnedByFlight(l', f) <==> OwnedByFlight(l, f);
  }

  lemma SweepKeepsHolders(cfg: Config, w: World, now: int, ttl: int)
    requires HolderInv(cfg, w)
    ensures HolderInv(cfg, Sweep(w, now, ttl))
  {
    var w' := Sweep(w, now, ttl);
    forall d | d in w'.life.dirs && !w'.life.dirs[d].cleaned && SetupAt(w'.life, d) == SetupOk && !OwnedByFlight(w'.life, d)
      ensures exists id :: HeldByJob(w', id, d)
    {
      assert !w.life.dirs[d].cleaned && !OwnedByFlight(w.life, d);
      var id :| HeldByJob(w, id, d);
      assert HeldByJob(w', id, d);
    }
  }

  lemma SweepKeepsStorage(cfg: Config, w: World, now: int, ttl: int)
    requires StorageInv(cfg, w)
    ensures StorageInv(cfg, Sweep(w, now, ttl))
  {
    SweepKeepsLife(cfg, w, now, ttl);
    SweepKeepsHolders(cfg, w, now, ttl);
  }

  // ---- drain ----

  /** One turn of the drain loop when the head of the queue is startable. */
  function Launch(cfg: Config, w: World, now: int): World
    requires |w.queue| > 0 && w.queue[0] in w.recs
  {
    Start(cfg, w.(queue := w.queue[1..]), w.queue[0], now)
  }

  /** The guard in the drain loop is never taken: the head of the queue is always startable. */
  lemma HeadIsStartable(cfg: Config, w: World)
    requires QueueInv(w) && |w.queue| > 0
    ensures Startable(w.(queue := w.queue[1..]), w.queue[0])
  {
    assert w.queue[0] in w.queue;
  }

  lemma LaunchKeepsQueue(cfg: Config, w: World, now: int)
    requires QueueInv(w) && |w.queue| > 0
    ensures w.queue[0] in w.recs && QueueInv(Launch(cfg, w, now))
  {
    var id, rest := w.queue[0], w.queue[1..];
    assert w.queue == [id] + rest;
    assert id in w.queue && id !in rest;
  }

  lemma LaunchKeepsHistory(cfg: Config, w: World, now: int)
    requires QueueInv(w) && HistoryInv(w) && |w.queue| > 0 && w.queue[0] in w.recs
    ensures HistoryInv(Launch(cfg, w, now))
  {
    var w' := Launch(cfg, w, now);
    var id, rest := w.queue[0], w.queue[1..];
    assert w.started + w.queue == w'.started + w'.queue by {
      assert w.queue == [id] + rest;
      assert w.started + ([id] + rest) == (w.started + [id]) + rest;
    }
  }

  lemma LaunchKeepsRuns(cfg: Config, w: World, now: int)
    requires QueueInv(w) && RunInv(cfg, w) && |w.queue| > 0 && w.queue[0] in w.recs
    requires w.running < cfg.RunLimit()
    ensures RunInv(cfg, Launch(cfg, w, now))
  {
    var w' := Launch(cfg, w, now);
    var id, f := w.queue[0], w.life.next;
    assert id in w.queue;
    CardAdd(RunFlights(w), f, RunFlights(w'));
    assert IsRunOf(w', f, id);
    assert forall g, j :: IsRunOf(w', g, j) <==> IsRunOf(w, g, j) || (g == f && j == id);
  }

  lemma LaunchKeepsLife(cfg: Config, w: World, now: int)
    requires LifecycleInv(w.life, cfg.SlotLimit()) && |w.queue| > 0 && w.queue[0] in w.recs
    ensures LifecycleInv(Launch(cfg, w, now).life, cfg.SlotLimit())
  {
    var attempt := cfg.AttemptOf(w.life.next, w.recs[w.queue[0]].name);
    BeginKeepsSlots(w.life, cfg.SlotLimit(), attempt, QueueRun(w.queue[0]));
    BeginKeepsDirs(w.life, cfg.SlotLimit(), attempt, QueueRun(w.queue[0]));
  }

  /** Starting a download adds at most one directory, and that one belongs to the new flight. */
  lemma BeginKeepsHolders(cfg: Config, w: World, w': World, attempt: Attempt, caller: Caller)
    requires LifecycleInv(w.life, cfg.SlotLimit()) && HolderInv(cfg, w)
    requires w'.life == Begin(w.life, cfg.SlotLimit(), attempt, caller)
    requires forall d, j :: HeldByJob(w, j, d) ==> HeldByJob(w', j, d)
    ensures HolderInv(cfg, w')
  {
  }

  /** A new flight leaves every artifact and callback as it was. */
  lemma BeginKeepsArtifacts(cfg: Config, w: World, w': World)
    requires ArtifactInv(cfg, w) && w'.jobs == w.jobs && Grows(w.life, w'.life)
    requires w'.recs.Keys == w.recs.Keys
    requires forall j :: j in w.recs && w'.recs[j] != w.recs[j] ==>
               w'.recs[j].artifact.None? && w.recs[j].artifact.None? && !w'.recs[j].status.Ready? && !w'.recs[j].aborted
    ensures ArtifactInv(cfg, w')
  {
  }

  lemma BeginKeepsHandles(cfg: Config, w: World, w': World)
    requires HandleInv(cfg, w) && w'.handles == w.handles && Grows(w.life, w'.life)
    requires w'.recs.Keys == w.recs.Keys
    requires forall j :: j in w.recs ==>
               && w'.recs[j].artifact == w.recs[j].artifact && w'.recs[j].consumed == w.recs[j].consumed
               && (w.recs[j].status.Expired? ==> w'.recs[j].status.Expired?)
    ensures HandleInv(cfg, w')
  {
  }

  lemma LaunchKeepsStorage(cfg: Config, w: World, now: int)
    requires StorageInv(cfg, w) && |w.queue| > 0 && w.queue[0] in w.recs
    requires w.recs[w.queue[0]].status.Queued?
    ensures StorageInv(cfg, Launch(cfg, w, now))
  {
    var w' := Launch(cfg, w, now);
    var attempt := cfg.AttemptOf(w.life.next, w.recs[w.queue[0]].name);
    LaunchKeepsLife(cfg, w, now);
    BeginGrows(w.life, cfg.SlotLimit(), attempt, QueueRun(w.queue[0]));
    BeginKeepsArtifacts(cfg, w, w');
    BeginKeepsHandles(cfg, w, w');
    assert forall d, j :: HeldByJob(w, j, d) ==> HeldByJob(w', j, d);
    BeginKeepsHolders(cfg, w, w', attempt, QueueRun(w.queue[0]));
  }

  /** Everything but the wakeup promise, which the drain owes only at its end. */
  ghost predicate DrainingInv(cfg: Config, w: World) {
    QueueInv(w) && HistoryInv(w) && RunInv(cfg, w) && StorageInv(cfg, w)
  }

  lemma LaunchKeeps(cfg: Config, w: World, now: int)
    requires DrainingInv(cfg, w) && |w.queue| > 0 && w.running < cfg.RunLimit()
    ensures w.queue[0] in w.recs && DrainingInv(cfg, Launch(cfg, w, now))
  {
    HeadIsStartable(cfg, w);
    LaunchKeepsQueue(cfg, w, now);
    LaunchKeepsHistory(cfg, w, now);
    LaunchKeepsRuns(cfg, w, now);
    LaunchKeepsStorage(cfg, w, now);
  }

  lemma {:induction false} DrainLoopKeeps(cfg: Config, w: World, now: int)
    requires DrainingInv(cfg, w)
    ensures DrainingInv(cfg, DrainLoop(cfg, w, now))
    ensures var w' := DrainLoop(cfg, w, now); |w'.queue| == 0 || w'.running >= cfg.RunLimit()
    decreases |w.queue|
  {
    if w.running < cfg.RunLimit() && |w.queue| > 0 {
      HeadIsStartable(cfg, w);
      LaunchKeeps(cfg, w, now);
      DrainLoopKeeps(cfg, Launch(cfg, w, now), now);
    }
  }

  /** Clearing the flag, as the microtask does first, suspends only the wakeup promise. */
  lemma UndrainedInv(cfg: Config, w: World)
    requires Inv(cfg, w)
    ensures DrainingInv(cfg, w.(drain := false))
  {
    var w1 := w.(drain := false);
    assert RunFlights(w1) == RunFlights(w);
    assert forall f, j :: IsRunOf(w1, f, j) <==> IsRunOf(w, f, j);
    assert forall d, j :: HeldByJob(w, j, d) <==> HeldByJob(w1, j, d);
  }

  lemma DrainTaskKeeps(cfg: Config, w: World, now: int)
    requires Inv(cfg, w)
    ensures Inv(cfg, DrainTask(cfg, w, now))
  {
    if w.drain {
      UndrainedInv(cfg, w);
      DrainLoopKeeps(cfg, w.(drain := false), now);
    }
  }

  // ---- settling downloads ----

  lemma SettleKeepsRuns(cfg: Config, w: World, f: FlightId, ok: bool)
    requires RunInv(cfg, w) && Awaiting(w, f)
    ensures RunInv(cfg, DownloaderSettles(w, f, ok))
  {
    var w' := DownloaderSettles(w, f, ok);
    assert RunFlights(w') == RunFlights(w);
    assert forall g, j :: IsRunOf(w', g, j) <==> IsRunOf(w, g, j);
  }

  lemma SettleKeepsArtifacts(cfg: Config, w: World, f: FlightId, ok: bool)
    requires ArtifactInv(cfg, w) && HandleInv(cfg, w) && Awaiting(w, f)
    ensures ArtifactInv(cfg, DownloaderSettles(w, f, ok)) && HandleInv(cfg, DownloaderSettles(w, f, ok))
  {
    var w' := DownloaderSettles(w, f, ok);
    assert forall d :: d in w.life.dirs && d != f ==> w'.life.dirs[d] == w.life.dirs[d];
  }

  lemma SettleKeepsStorage(cfg: Config, w: World, f: FlightId, ok: bool)
    requires StorageInv(cfg, w) && Awaiting(w, f)
    ensures StorageInv(cfg, DownloaderSettles(w, f, ok))
  {
    var w' := DownloaderSettles(w, f, ok);
    SettleKeepsArtifacts(cfg, w, f, ok);
    SettleDownloaderKeeps(w.life, f, ok, cfg.SlotLimit());
    assert forall d, j :: HeldByJob(w', j, d) <==> HeldByJob(w, j, d);
    assert forall d :: d != f ==> (OwnedByFlight(w'.life, d) <==> OwnedByFlight(w.life, d));
  }

  lemma DownloaderKeeps(cfg: Config, w: World, f: FlightId, ok: bool)
    requires Inv(cfg, w)
    ensures Inv(cfg, DownloaderSettles(w, f, ok))
  {
    if Awaiting(w, f) {
      SettleKeepsRuns(cfg, w, f, ok);
      SettleKeepsStorage(cfg, w, f, ok);
    }
  }

  // ---- settling runs ----

  /** The record of an in-flight run is running or canceled, and refers to no directory yet. */
  lemma RunRecord(cfg: Config, w: World, f: FlightId)
    requires RunInv(cfg, w) && ArtifactInv(cfg, w) && Settling(w, f)
    ensures var job := w.recs[w.life.flights[f].caller.job];
            job.artifact.None? && (job.status.Running? || job.status.Canceled?) && (job.aborted ==> job.status.Canceled?)
  {
    assert IsRunOf(w, f, w.life.flights[f].caller.job);
  }

  /** What the end of a run changes: one record, the flight, its directory, one slot and the wakeup. */
  lemma RunShape(cfg: Config, w: World, f: FlightId, now: int)
    requires RunInv(cfg, w) && ArtifactInv(cfg, w) && Settling(w, f)
    ensures var w' := RunSettles(w, f, now);
            var id := w.life.flights[f].caller.job;
            && w'.recs.Keys == w.recs.Keys
            && (forall j :: j in w.recs && j != id ==> w'.recs[j] == w.recs[j])
            && w'.recs[id].consumed == w.recs[id].consumed
            && w'.recs[id].aborted == w.recs[id].aborted
            && (if w.recs[id].status.Canceled? then w'.recs[id] == w.recs[id]
                else if w.life.flights[f].phase.Returned? then w'.recs[id].status.Ready? && w'.recs[id].artifact == Some(f)
                else w'.recs[id].status.Failed? && w'.recs[id].artifact.None?)
            && w'.jobs == w.jobs && w'.queue == w.queue && w'.handles == w.handles
            && w'.created == w.created && w'.started == w.started && w'.dropped == w.dropped
            && w'.drain && w'.running == w.running - 1
            && w'.life == (if w.recs[id].status.Canceled? && w.life.flights[f].phase.Returned?
                           then Land(Cleanup(w.life, f), f) else Land(w.life, f))
  {
    RunRecord(cfg, w, f);
  }

  lemma RunKeepsQueue(cfg: Config, w: World, f: FlightId, now: int)
    requires QueueInv(w) && HistoryInv(w) && RunInv(cfg, w) && ArtifactInv(cfg, w) && Settling(w, f)
    ensures QueueInv(RunSettles(w, f, now)) && HistoryInv(RunSettles(w, f, now))
  {
    var w' := RunSettles(w, f, now);
    RunRecord(cfg, w, f);
    RunShape(cfg, w, f, now);
    assert forall j :: j in w.recs ==> (w'.recs[j].status.Queued? <==> w.recs[j].status.Queued?);
    assert forall j :: j in w.recs ==> (w'.recs[j].status.Running? ==> w.recs[j].status.Running?);
  }

  lemma RunKeepsRuns(cfg: Config, w: World, f: FlightId, now: int)
    requires RunInv(cfg, w) && ArtifactInv(cfg, w) && Settling(w, f)
    ensures RunInv(cfg, RunSettles(w, f, now))
  {
    var w' := RunSettles(w, f, now);
    var id := w.life.flights[f].caller.job;
    RunShape(cfg, w, f, now);
    assert IsRunOf(w, f, id);
    CardRemove(RunFlights(w), f, RunFlights(w'));
    assert forall g, j :: IsRunOf(w', g, j) <==> IsRunOf(w, g, j) && g != f;
  }

  lemma RunKeepsLife(cfg: Config, w: World, f: FlightId, now: int)
    requires LifecycleInv(w.life, cfg.SlotLimit()) && Settling(w, f)
    ensures LifecycleInv(Land(w.life, f), cfg.SlotLimit())
    ensures w.life.flights[f].phase.Returned? ==>
              LifecycleInv(Land(Cleanup(w.life, f), f), cfg.SlotLimit())
  {
    var landed := Land(w.life, f);
    LandKeeps(w.life, f, cfg.SlotLimit());
    if w.life.flights[f].phase.Returned? {
      assert OwnedByFlight(w.life, f);
      CleanupKeeps(landed, f, cfg.SlotLimit());
      assert Land(Cleanup(w.life, f), f) == Cleanup(landed, f);
    }
  }

  /** A flight lands and directories are only ever cleaned; records and callbacks are as before. */
  ghost predicate Landed(w: World, w': World, f: FlightId) {
    && f in w.life.flights
    && w'.recs == w.recs && w'.jobs == w.jobs && w'.handles == w.handles
    && w'.life.flights == w.life.flights - {f} && w'.life.attempts == w.life.attempts
    && w'.life.dirs.Keys == w.life.dirs.Keys
    && (forall d :: d in w.life.dirs && w.life.dirs[d].cleaned ==> w'.life.dirs[d].cleaned)
    && (forall d :: d in w.life.dirs && d != f ==> w'.life.dirs[d] == w.life.dirs[d])
    && (OwnedByFlight(w.life, f) && f in w.life.dirs ==> w'.life.dirs[f].cleaned)
  }

  lemma LandedKeepsArtifacts(cfg: Config, w: World, w': World, f: FlightId)
    requires ArtifactInv(cfg, w) && HandleInv(cfg, w) && Landed(w, w', f)
    ensures ArtifactInv(cfg, w') && HandleInv(cfg, w')
  {
  }

  lemma LandedKeepsHolders(cfg: Config, w: World, w': World, f: FlightId)
    requires HolderInv(cfg, w) && Landed(w, w', f)
    ensures HolderInv(cfg, w')
  {
    assert forall d, j :: HeldByJob(w', j, d) <==> HeldByJob(w, j, d);
    assert forall d :: d != f && OwnedByFlight(w.life, d) ==> OwnedByFlight(w'.life, d);
  }

  lemma RunCanceledLands(cfg: Config, w: World, f: FlightId, now: int)
    requires RunInv(cfg, w) && ArtifactInv(cfg, w) && Settling(w, f) && w.recs[w.life.flights[f].caller.job].status.Canceled?
    ensures Landed(w, RunSettles(w, f, now), f)
  {
    var w' := RunSettles(w, f, now);
    RunShape(cfg, w, f, now);
    assert w'.recs == w.recs;
  }

  /** A run that was not canceled marks its record: ready with the flight's directory, or failed. */
  ghost predicate RunMarked(w: World, w': World, f: FlightId, id: JobId) {
    && f in w.life.flights && id in w.recs && w'.recs.Keys == w.recs.Keys && w'.jobs == w.jobs
    && w.recs[id].artifact.None? && w.recs[id].status.Running?
    && (forall j :: j in w.recs && j != id ==> w'.recs[j] == w.recs[j])
    && w'.life == Land(w.life, f) && !w'.recs[id].aborted
    && (if w.life.flights[f].phase.Returned? then w'.recs[id].status.Ready? && w'.recs[id].artifact == Some(f)
        else w'.recs[id].status.Failed? && w'.recs[id].artifact.None?)
  }

  lemma RunMarks(cfg: Config, w: World, f: FlightId, now: int)
    requires RunInv(cfg, w) && ArtifactInv(cfg, w) && Settling(w, f) && !w.recs[w.life.flights[f].caller.job].status.Canceled?
    ensures RunMarked(w, RunSettles(w, f, now), f, w.life.flights[f].caller.job)
  {
    RunRecord(cfg, w, f);
    RunShape(cfg, w, f, now);
  }

  lemma MarkedKeepsArtifacts(cfg: Config, w: World, w': World, f: FlightId, id: JobId)
    requires ArtifactInv(cfg, w) && DirInv(w.life) && RunMarked(w, w', f, id) && id in w.jobs
    requires w.life.flights[f].phase.Returned? ==> OwnedByFlight(w.life, f)
    ensures ArtifactInv(cfg, w')
  {
    assert forall j :: j in w.recs && w.recs[j].artifact.Some? ==> w.recs[j].artifact != Some(f);
  }

  lemma MarkedKeepsHolders(cfg: Config, w: World, w': World, f: FlightId, id: JobId)
    requires HolderInv(cfg, w) && RunMarked(w, w', f, id) && id in w.jobs && !w.life.flights[f].phase.Downloading?
    ensures HolderInv(cfg, w')
  {
    assert forall d, j :: HeldByJob(w, j, d) ==> HeldByJob(w', j, d);
    assert forall d :: d != f && OwnedByFlight(w.life, d) ==> OwnedByFlight(w'.life, d);
    assert OwnedByFlight(w.life, f) ==> HeldByJob(w', id, f);
  }

  lemma RunKeepsArtifacts(cfg: Config, w: World, f: FlightId, now: int)
    requires RunInv(cfg, w) && QueueInv(w) && ArtifactInv(cfg, w) && HolderInv(cfg, w) && HandleInv(cfg, w)
    requires DirInv(w.life) && Settling(w, f)
    ensures ArtifactInv(cfg, RunSettles(w, f, now)) && HolderInv(cfg, RunSettles(w, f, now))
  {
    var w' := RunSettles(w, f, now);
    var id := w.life.flights[f].caller.job;
    if w.recs[id].status.Canceled? {
      RunCanceledLands(cfg, w, f, now);
      LandedKeepsArtifacts(cfg, w, w', f);
      LandedKeepsHolders(cfg, w, w', f);
    } else {
      RunMarks(cfg, w, f, now);
      MarkedKeepsArtifacts(cfg, w, w', f, id);
      MarkedKeepsHolders(cfg, w, w', f, id);
    }
  }

  lemma RunKeepsHandles(cfg: Config, w: World, f: FlightId, now: int)
    requires RunInv(cfg, w) && ArtifactInv(cfg, w) && HandleInv(cfg, w) && Settling(w, f)
    ensures HandleInv(cfg, RunSettles(w, f, now))
  {
    var w' := RunSettles(w, f, now);
    RunRecord(cfg, w, f);
    RunShape(cfg, w, f, now);
    assert w'.life.flights == w.life.flights - {f};
    assert forall d :: d in w.life.dirs ==> d in w'.life.dirs && (w.life.dirs[d].cleaned ==> w'.life.dirs[d].cleaned);
  }

  lemma RunKeeps(cfg: Config, w: World, f: FlightId, now: int)
    requires Inv(cfg, w)
    ensures Inv(cfg, RunSettles(w, f, now))
  {
    if Settling(w, f) {
      RunShape(cfg, w, f, now);
      RunKeepsQueue(cfg, w, f, now);
      RunKeepsRuns(cfg, w, f, now);
      RunKeepsLife(cfg, w, f, now);
      RunKeepsArtifacts(cfg, w, f, now);
      RunKeepsHandles(cfg, w, f, now);
    }
  }

  // ---- direct downloads ----

  lemma DirectCallControl(cfg: Config, w: World, name: F.Text)
    requires ControlInv(cfg, w)
    ensures ControlInv(cfg, DirectCall(cfg, w, name))
  {
    var w' := DirectCall(cfg, w, name);
    assert RunFlights(w') == RunFlights(w);
    assert forall f, j :: IsRunOf(w', f, j) <==> IsRunOf(w, f, j);
  }

  lemma DirectCallStorage(cfg: Config, w: World, name: F.Text)
    requires StorageInv(cfg, w)
    ensures StorageInv(cfg, DirectCall(cfg, w, name))
  {
    var w' := DirectCall(cfg, w, name);
    var attempt := cfg.AttemptOf(w.life.next, name);
    BeginKeepsSlots(w.life, cfg.SlotLimit(), attempt, Direct);
    BeginKeepsDirs(w.life, cfg.SlotLimit(), attempt, Direct);
    BeginGrows(w.life, cfg.SlotLimit(), attempt, Direct);
    BeginKeepsArtifacts(cfg, w, w');
    BeginKeepsHandles(cfg, w, w');
    assert forall d, j :: HeldByJob(w, j, d) ==> HeldByJob(w', j, d);
    BeginKeepsHolders(cfg, w, w', attempt, Direct);
  }

  lemma DirectDeliveredLife(cfg: Config, w: World, f: FlightId)
    requires LifecycleInv(w.life, cfg.SlotLimit()) && DirectSettled(w, f)
    ensures LifecycleInv(DirectDelivered(w, f).life, cfg.SlotLimit())
  {
    var landed := Land(w.life, f);
    LandKeeps(w.life, f, cfg.SlotLimit());
    if w.life.flights[f].phase.Returned? {
      assert OwnedByFlight(w.life, f);
      CleanupKeeps(landed, f, cfg.SlotLimit());
      assert Land(Cleanup(w.life, f), f) == Cleanup(landed, f);
    }
  }

  lemma DirectDeliveredLands(w: World, f: FlightId)
    requires DirectSettled(w, f)
    ensures Landed(w, DirectDelivered(w, f), f)
  {
  }

  lemma DirectDeliveredStorage(cfg: Config, w: World, f: FlightId)
    requires StorageInv(cfg, w) && DirectSettled(w, f)
    ensures StorageInv(cfg, DirectDelivered(w, f))
  {
    var w' := DirectDelivered(w, f);
    DirectDeliveredLife(cfg, w, f);
    DirectDeliveredLands(w, f);
    LandedKeepsArtifacts(cfg, w, w', f);
    LandedKeepsHolders(cfg, w, w', f);
  }

  lemma DirectDeliveredRuns(cfg: Config, w: World, f: FlightId)
    requires RunInv(cfg, w) && DirectSettled(w, f)
    ensures RunInv(cfg, DirectDelivered(w, f))
  {
    var w' := DirectDelivered(w, f);
    assert w'.life.flights == w.life.flights - {f} && w'.recs == w.recs;
    assert RunFlights(w') == RunFlights(w);
    assert forall g, j :: IsRunOf(w', g, j) <==> IsRunOf(w, g, j);
  }

  lemma DirectDeliveredControl(cfg: Config, w: World, f: FlightId)
    requires ControlInv(cfg, w) && DirectSettled(w, f)
    ensures ControlInv(cfg, DirectDelivered(w, f))
  {
    DirectDeliveredRuns(cfg, w, f);
  }

  lemma DirectDeliveredKeeps(cfg: Config, w: World, f: FlightId)
    requires Inv(cfg, w)
    ensures Inv(cfg, DirectDelivered(w, f))
  {
    if DirectSettled(w, f) {
      DirectDeliveredStorage(cfg, w, f);
      DirectDeliveredControl(cfg, w, f);
    }
  }

  // ---- every step, every run ----

  lemma StepKeeps(cfg: Config, w: World, e: Event)
    requires Inv(cfg, w)
    ensures Inv(cfg, Step(cfg, w, e))
  {
    match e
    case ECreate(id, name, now) =>
      if id !in w.recs {
        CreateKeepsControl(cfg, w, id, name, now);
        CreateKeepsStorage(cfg, w, id, name, now);
      }
    case ECancel(id, now) =>
      CancelKeepsControl(cfg, w, id, now);
      CancelKeepsStorage(cfg, w, id, now);
    case EConsume(id) =>
      ConsumeKeepsControl(cfg, w, id);
      ConsumeKeepsStorage(cfg, w, id);
    case EDeliver(h, now) =>
      DeliverKeepsControl(cfg, w, h, now);
      DeliverKeepsStorage(cfg, w, h, now);
    case ESweep(now, ttl) =>
      SweepKeepsControl(cfg, w, now, ttl);
      SweepKeepsStorage(cfg, w, now, ttl);
    case EDrain(now) => DrainTaskKeeps(cfg, w, now);
    case EDownloader(f, ok) => DownloaderKeeps(cfg, w, f, ok);
    case ERun(f, now) => RunKeeps(cfg, w, f, now);
    case EDirectCall(name) =>
      DirectCallControl(cfg, w, name);
      DirectCallStorage(cfg, w, name);
    case EDirectDelivered(f) => DirectDeliveredKeeps(cfg, w, f);
  }

  /** Every world reached from the empty one, by any sequence of turns, satisfies the invariant. */
  lemma {:induction false} AfterKeeps(cfg: Config, w: World, es: seq<Event>)
    requires Inv(cfg, w)
    ensures Inv(cfg, After(cfg, w, es))
    decreases |es|
  {
    if es != [] {
      StepKeeps(cfg, w, es[0]);
      AfterKeeps(cfg, Step(cfg, w, es[0]), es[1..]);
    }
  }
}
