/**
 The media services under arbitrary traffic: every kind of turn dispatched to the objects, and the
 theorems of the state machine read off the objects after a whole run.
 */
module MediaServer {
  import opened Common
  import opened MediaLifecycle
  import opened MediaDownloadJobs
  import F = FileNames
  import I = MediaQueueInvariants
  import Q = MediaQueue
  import R = Rfc5987
  import T = MediaQueueTheorems

  /** A direct HTTP download reaches the shared lifecycle. */
  method DirectCall(service: MediaDownloadJobService, name: F.Text)
    requires service.Valid()
    modifies service.media
    ensures service.Valid() && service.View() == Q.DirectCall(service.cfg, old(service.View()), name)
  {
    var f := service.media.Download(name, Direct);
  }

  /** Its response ends: an artifact is cleaned, and the call is over. */
  method DirectDelivered(service: MediaDownloadJobService, f: FlightId)
    requires service.Valid()
    modifies service.media`dirs, service.media`flights
    ensures service.Valid() && service.View() == Q.DirectDelivered(old(service.View()), f)
  {
    var flights := service.media.flights;
    if f !in flights || flights[f].phase.Downloading? || !flights[f].caller.Direct? {
      return;
    }
    if flights[f].phase.Returned? {
      service.media.RunCleanup(f);
    }
    service.media.LandFlight(f);
  }

  /** A continuation runs, if what it waits for has happened. */
  method Continuation(service: MediaDownloadJobService, e: Q.Event)
    requires service.Valid() && (e.EDownloader? || e.ERun? || e.EDeliver?)
    modifies service, service.media, service.records.Values
    ensures service.Valid() && service.View() == Q.Step(service.cfg, old(service.View()), e)
    ensures service.records == old(service.records)
  {
    var flights := service.media.flights;
    if e.EDeliver? {
      if e.h < |service.handles| {
        service.RunCallback(e.h, e.now);
      }
    } else if e.f in flights && e.EDownloader? {
      if flights[e.f].phase.Downloading? {
        service.ContinueDownload(e.f, e.ok);
      }
    } else if e.f in flights && !flights[e.f].phase.Downloading? && flights[e.f].caller.QueueRun? {
      service.ContinueRun(e.f, e.now);
    }
  }

  method Turn(service: MediaDownloadJobService, e: Q.Event)
    requires service.Valid() && (e.ECreate? ==> e.id !in service.records)
    modifies service, service.media, service.records.Values
    ensures service.Valid() && service.View() == Q.Step(service.cfg, old(service.View()), e)
    ensures fresh(service.records.Values - old(service.records.Values))
  {
    match e
    case ECreate(id, name, now) => var accepted := service.Create(id, name, now);
    case ECancel(id, now) => var found := service.Cancel(id, now);
    case EConsume(id) => var r := service.ConsumeReadyArtifact(id);
    case ESweep(now, ttl) => var count := service.CleanupExpiredJobs(now, ttl);
    case EDrain(now) => service.DrainTask(now);
    case EDirectCall(name) => DirectCall(service, name);
    case EDirectDelivered(f) => DirectDelivered(service, f);
    case _ => Continuation(service, e);
  }

  /** `randomUUID` never repeats. */
  ghost predicate FreshIds(cfg: Q.Config, events: seq<Q.Event>) {
    forall i :: 0 <= i < |events| && events[i].ECreate? ==> events[i].id !in T.Reached(cfg, events[..i]).recs
  }

  /**
   A whole run of the server: in the objects, both counters count what they say and stay within their
   limits, and no directory is left without an owner exactly when every name that reached a directory
   was well-formed.
   */
  method RunMediaServer(cfg: Q.Config, events: seq<Q.Event>) returns (service: MediaDownloadJobService)
    requires FreshIds(cfg, events)
    ensures service.Valid() && service.cfg == cfg && service.View() == T.Reached(cfg, events)
    ensures service.runningCount == |I.RunFlights(service.View())| <= cfg.RunLimit()
    ensures cfg.concurrencyLimit.Some? ==> service.media.activeDownloads <= cfg.concurrencyLimit.value
    ensures T.NoOrphan(service.View()) <==>
              forall f :: f in service.media.attempts && cfg.mkdir(f) ==> R.WellFormed(service.media.attempts[f].name)
  {
    var media := new MediaDownloadService(cfg);
    service := new MediaDownloadJobService(cfg, media);
    var i := 0;
    assert events[..0] == [];
    while i < |events|
      invariant 0 <= i <= |events|
      invariant fresh(service) && fresh(service.media) && fresh(service.records.Values)
      invariant service.Valid() && service.cfg == cfg
      invariant service.View() == T.Reached(cfg, events[..i])
    {
      Turn(service, events[i]);
      assert events[..i + 1] == events[..i] + [events[i]];
      T.AfterConcat(cfg, Q.EMPTY_WORLD, events[..i], [events[i]]);
      i := i + 1;
    }
    assert events[..i] == events;
    T.LimitsHold(cfg, events);
    T.NoOrphanIff(cfg, events);
  }
}
