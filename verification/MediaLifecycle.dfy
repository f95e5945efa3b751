/**
 The download lifecycle of one temporary directory, as values: what
 `MediaDownloadService.download` does between its awaits.

 A flight is one call of `download`. Its synchronous part (slot check, slot
 increment, directory creation) is `Begin`; its continuation after the
 downloader is `SettleDownloader`. The `cleanup` closure a flight hands out is
 `Cleanup`, keyed by the flight that made the directory.
 */
module MediaLifecycle {
  import opened Common
  import F = FileNames
  import R = Rfc5987

  type FlightId = nat
  type JobId = nat

  /** Who awaits the promise: a queued job's run, or a direct HTTP request. */
  datatype Caller = QueueRun(job: JobId) | Direct

  datatype Refusal = TooManyActive | SetupThrew | DownloaderFailed

  datatype Phase =
    | Downloading              // awaiting the downloader, holding a slot and a directory
    | Returned                 // the artifact is on its way to the caller
    | Threw(reason: Refusal)   // the rejection is on its way to the caller

  datatype Flight = Flight(caller: Caller, phase: Phase)

  /** A directory with its closure's `cleaned` flag and the number of removals carried out. */
  datatype WorkDir = WorkDir(cleaned: bool, removals: nat)

  /** What happens in the unprotected lines between the slot increment and the `try`. */
  datatype Setup = SetupOk | MkdirThrew | PathThrew

  /** The directory is created, or not; then `encodeURIComponent(job.downloadName)` may throw. */
  function SetupOf(mkdirOk: bool, name: F.Text): Setup {
    if !mkdirOk then MkdirThrew
    else if R.EncodeUriComponent(name).Err? then PathThrew
    else SetupOk
  }

  lemma SetupOfIff(mkdirOk: bool, name: F.Text)
    ensures SetupOf(mkdirOk, name) == SetupOk <==> mkdirOk && R.WellFormed(name)
    ensures SetupOf(mkdirOk, name) == PathThrew <==> mkdirOk && !R.WellFormed(name)
  {
    R.EncodeFailsIffIllFormed(name);
  }

  /** One call that got past the slot check: the name it was for and how its setup went. */
  datatype Attempt = Attempt(name: F.Text, setup: Setup)

  datatype Lifecycle = Lifecycle(
    active: int,                     // the source's activeDownloads
    flights: map<FlightId, Flight>,  // pending continuations
    dirs: map<FlightId, WorkDir>,
    next: FlightId,
    lost: set<FlightId>,             // flights whose setup threw after taking a slot
    attempts: map<FlightId, Attempt>)  // history: every call that took a slot

  const EMPTY_LIFECYCLE := Lifecycle(0, map[], map[], 0, {}, map[])

  predicate SlotAvailable(l: Lifecycle, limit: Option<nat>) {
    limit.None? || l.active < limit.value
  }

  /** `download` up to its first await. */
  function Begin(l: Lifecycle, limit: Option<nat>, attempt: Attempt, caller: Caller): Lifecycle {
    var f := l.next;
    if !SlotAvailable(l, limit) then
      l.(flights := l.flights[f := Flight(caller, Threw(TooManyActive))], next := f + 1)
    else
      var taken := l.(active := l.active + 1, next := f + 1, attempts := l.attempts[f := attempt]);
      match attempt.setup
      case SetupOk =>
        taken.(flights := l.flights[f := Flight(caller, Downloading)], dirs := l.dirs[f := WorkDir(false, 0)])
      case MkdirThrew =>
        taken.(flights := l.flights[f := Flight(caller, Threw(SetupThrew))], lost := l.lost + {f})
      case PathThrew =>
        taken.(flights := l.flights[f := Flight(caller, Threw(SetupThrew))],
               dirs := l.dirs[f := WorkDir(false, 0)], lost := l.lost + {f})
  }

  /** The once-only `cleanup` closure of directory `d`. */
  function Cleanup(l: Lifecycle, d: FlightId): Lifecycle {
    if d in l.dirs && !l.dirs[d].cleaned then
      l.(dirs := l.dirs[d := WorkDir(true, l.dirs[d].removals + 1)])
    else l
  }

  /** The continuation after the downloader: catch (cleanup, rethrow) or return, then finally. */
  function SettleDownloader(l: Lifecycle, f: FlightId, ok: bool): Lifecycle
    requires f in l.flights
  {
    var l1 := if ok then l else Cleanup(l, f);
    var phase := if ok then Returned else Threw(DownloaderFailed);
    l1.(active := l1.active - 1, flights := l1.flights[f := l1.flights[f].(phase := phase)])
  }

  function Land(l: Lifecycle, f: FlightId): Lifecycle {
    l.(flights := l.flights - {f})
  }

  function InPhaseDownloading(l: Lifecycle): set<FlightId> {
    set f | f in l.flights && l.flights[f].phase.Downloading?
  }

  /** A directory nobody has removed yet. */
  predicate Unremoved(l: Lifecycle, d: FlightId) {
    d in l.dirs && l.dirs[d].removals == 0
  }

  /** A flight that still owns its directory. */
  predicate OwnedByFlight(l: Lifecycle, d: FlightId) {
    d in l.flights && !l.flights[d].phase.Threw?
  }

  /** The slot counter: one slot per pending downloader, plus the slots lost to a throwing setup. */
  ghost predicate SlotInv(l: Lifecycle, limit: Option<nat>) {
    && (forall f :: f in l.flights || f in l.lost ==> f < l.next)
    && l.active == |InPhaseDownloading(l)| + |l.lost|
    && (limit.Some? ==> l.active <= limit.value)
  }

  /** How the setup of flight `f` went; a flight refused before it counts as harmless. */
  function SetupAt(l: Lifecycle, f: FlightId): Setup {
    if f in l.attempts then l.attempts[f].setup else SetupOk
  }

  /** The directories: removed exactly when the closure ran, and never while a flight owns them. */
  ghost predicate DirInv(l: Lifecycle) {
    && (forall f :: f in l.flights || f in l.dirs || f in l.lost || f in l.attempts ==> f < l.next)
    && (forall f :: f in l.lost <==> SetupAt(l, f) != SetupOk)
    && (forall d :: d in l.dirs ==> l.dirs[d].removals == if l.dirs[d].cleaned then 1 else 0)
    && (forall f :: OwnedByFlight(l, f) ==> f in l.dirs && !l.dirs[f].cleaned && SetupAt(l, f) == SetupOk)
    && (forall d :: d in l.dirs && SetupAt(l, d) != SetupOk ==> SetupAt(l, d) == PathThrew && !l.dirs[d].cleaned)
    && (forall d :: SetupAt(l, d) == PathThrew ==> d in l.dirs)
  }

  /** What every reachable lifecycle satisfies, whoever the callers are. */
  ghost predicate LifecycleInv(l: Lifecycle, limit: Option<nat>) {
    SlotInv(l, limit) && DirInv(l)
  }

  lemma BeginKeepsSlots(l: Lifecycle, limit: Option<nat>, attempt: Attempt, caller: Caller)
    requires SlotInv(l, limit)
    ensures SlotInv(Begin(l, limit, attempt, caller), limit)
  {
    var f := l.next;
    var l' := Begin(l, limit, attempt, caller);
    var before := InPhaseDownloading(l);
    var after := InPhaseDownloading(l');
    if SlotAvailable(l, limit) && attempt.setup == SetupOk {
      CardAdd(before, f, after);
    } else {
      assert after == before;
      if SlotAvailable(l, limit) {
        CardAdd(l.lost, f, l'.lost);
      }
    }
  }

  lemma RefusedKeepsDirs(l: Lifecycle, l': Lifecycle)
    requires DirInv(l) && l'.dirs == l.dirs && l'.lost == l.lost && l'.attempts == l.attempts
    requires l.next < l'.next && l'.flights.Keys == l.flights.Keys + {l.next}
    requires l.next in l'.flights && l'.flights[l.next].phase.Threw?
    requires forall f :: f in l.flights && f != l.next ==> l'.flights[f] == l.flights[f]
    ensures DirInv(l')
  {
    assert forall f :: OwnedByFlight(l', f) ==> OwnedByFlight(l, f);
    assert forall f :: SetupAt(l', f) == SetupAt(l, f);
  }

  /** What every call past the slot check does to the records of other calls. */
  lemma TakenFrame(l: Lifecycle, limit: Option<nat>, attempt: Attempt, caller: Caller)
    requires DirInv(l) && SlotAvailable(l, limit)
    ensures var l' := Begin(l, limit, attempt, caller);
            && (forall g :: SetupAt(l', g) == if g == l.next then attempt.setup else SetupAt(l, g))
            && (forall g :: g != l.next ==> (OwnedByFlight(l', g) <==> OwnedByFlight(l, g)))
            && (forall d :: d != l.next ==> (d in l'.dirs <==> d in l.dirs))
            && (forall d :: d in l.dirs ==> d != l.next && l'.dirs[d] == l.dirs[d])
            && (forall f :: f in l'.lost <==> f in l.lost || (f == l.next && attempt.setup != SetupOk))
            && (l.next in l'.dirs <==> attempt.setup != MkdirThrew)
            && (l.next in l'.dirs ==> l'.dirs[l.next] == WorkDir(false, 0))
            && (OwnedByFlight(l', l.next) <==> attempt.setup == SetupOk)
  {
  }

  lemma TakenKeepsDirs(l: Lifecycle, limit: Option<nat>, attempt: Attempt, caller: Caller)
    requires DirInv(l) && SlotAvailable(l, limit)
    ensures DirInv(Begin(l, limit, attempt, caller))
  {
    TakenFrame(l, limit, attempt, caller);
  }

  lemma BeginKeepsDirs(l: Lifecycle, limit: Option<nat>, attempt: Attempt, caller: Caller)
    requires DirInv(l)
    ensures DirInv(Begin(l, limit, attempt, caller))
  {
    if SlotAvailable(l, limit) {
      TakenKeepsDirs(l, limit, attempt, caller);
    } else {
      RefusedKeepsDirs(l, Begin(l, limit, attempt, caller));
    }
  }

  /** A new flight takes the next id; no directory there is changes. */
  ghost predicate Grows(l: Lifecycle, l': Lifecycle) {
    && l.next !in l.dirs
    && (forall d :: d != l.next ==> SetupAt(l', d) == SetupAt(l, d))
    && (forall d :: d in l.dirs ==> d in l'.dirs && l'.dirs[d] == l.dirs[d])
    && (forall f :: f in l'.flights ==> f in l.flights || f == l.next)
  }

  lemma BeginGrows(l: Lifecycle, limit: Option<nat>, attempt: Attempt, caller: Caller)
    requires DirInv(l)
    ensures Grows(l, Begin(l, limit, attempt, caller))
  {
  }

  lemma CleanupKeeps(l: Lifecycle, d: FlightId, limit: Option<nat>)
    requires LifecycleInv(l, limit)
    requires !OwnedByFlight(l, d) && SetupAt(l, d) == SetupOk
    ensures LifecycleInv(Cleanup(l, d), limit)
  {
    assert InPhaseDownloading(Cleanup(l, d)) == InPhaseDownloading(l);
  }

  lemma SettleDownloaderKeeps(l: Lifecycle, f: FlightId, ok: bool, limit: Option<nat>)
    requires LifecycleInv(l, limit)
    requires f in l.flights && l.flights[f].phase.Downloading?
    ensures LifecycleInv(SettleDownloader(l, f, ok), limit)
    ensures !ok ==> f in l.dirs && SettleDownloader(l, f, ok).dirs[f] == WorkDir(true, 1)
  {
    var l' := SettleDownloader(l, f, ok);
    assert OwnedByFlight(l, f);
    assert InPhaseDownloading(l') == InPhaseDownloading(l) - {f};
    assert forall g :: OwnedByFlight(l', g) ==> OwnedByFlight(l, g);
  }

  lemma LandKeeps(l: Lifecycle, f: FlightId, limit: Option<nat>)
    requires LifecycleInv(l, limit)
    requires f in l.flights && !l.flights[f].phase.Downloading?
    ensures LifecycleInv(Land(l, f), limit)
  {
    assert InPhaseDownloading(Land(l, f)) == InPhaseDownloading(l);
    assert forall g :: OwnedByFlight(Land(l, f), g) ==> OwnedByFlight(l, g);
  }
}
