/**
 What the download queue promises over whole runs: every theorem here is about
 `After(cfg, EMPTY_WORLD, es)` for an arbitrary sequence of turns `es`, or about
 any step from a world that satisfies the invariant.
 */
module MediaQueueTheorems {
  import opened Common
  import opened MediaLifecycle
  import opened MediaQueue
  import opened MediaQueueInvariants
  import F = FileNames
  import R = Rfc5987

  /** The world reached by `es` from an empty service. */
  function Reached(cfg: Config, es: seq<Event>): World {
    After(cfg, EMPTY_WORLD, es)
  }

  lemma ReachedInv(cfg: Config, es: seq<Event>)
    ensures Inv(cfg, Reached(cfg, es))
  {
    EmptyInv(cfg);
    AfterKeeps(cfg, EMPTY_WORLD, es);
  }

  // ---- directories ----

  ghost predicate HasOwner(w: World, d: FlightId) {
    OwnedByFlight(w.life, d) || exists id :: HeldByJob(w, id, d)
  }

  ghost predicate NoOrphan(w: World) {
    forall d :: Unremoved(w.life, d) ==> HasOwner(w, d)
  }

  /** Cancel, sweep, delivery and settlement together remove no directory twice. */
  lemma RemovedAtMostOnce(cfg: Config, es: seq<Event>)
    ensures forall d :: d in Reached(cfg, es).life.dirs ==> Reached(cfg, es).life.dirs[d].removals <= 1
  {
    ReachedInv(cfg, es);
  }

  // ---- names and setups ----

  /** Every recorded attempt went as its directory creation and its name say. */
  ghost predicate AttemptsExplained(cfg: Config, w: World) {
    forall f :: f in w.life.attempts ==> w.life.attempts[f].setup == SetupOf(cfg.mkdir(f), w.life.attempts[f].name)
  }

  /** Every name in the records and in the attempts can be encoded. */
  ghost predicate NamesWellFormed(w: World) {
    && (forall id :: id in w.recs ==> R.WellFormed(w.recs[id].name))
    && (forall f :: f in w.life.attempts ==> R.WellFormed(w.life.attempts[f].name))
  }

  /** The request, if it carries a name, carries one that can be encoded. */
  predicate GoodRequest(e: Event) {
    (e.ECreate? ==> R.WellFormed(e.name)) && (e.EDirectCall? ==> R.WellFormed(e.name))
  }

  /** What a turn may do to names: records keep theirs, and new attempts are for a record or for a direct call. */
  ghost predicate NamesPassedOn(cfg: Config, w: World, w': World, given: set<F.Text>) {
    && (forall id :: id in w'.recs ==> (id in w.recs && w'.recs[id].name == w.recs[id].name) || w'.recs[id].name in given)
    && (forall f :: f in w.life.attempts ==> f in w'.life.attempts)
    && (forall f :: f in w'.life.attempts ==>
          || (f in w.life.attempts && w'.life.attempts[f] == w.life.attempts[f])
          || (w'.life.attempts[f] == cfg.AttemptOf(f, w'.life.attempts[f].name)
              && (w'.life.attempts[f].name in given || exists id :: id in w.recs && w.recs[id].name == w'.life.attempts[f].name)))
  }

  lemma StartPassesNames(cfg: Config, w: World, id: JobId, now: int)
    requires id in w.recs
    ensures NamesPassedOn(cfg, w, Start(cfg, w, id, now), {})
  {
    var w' := Start(cfg, w, id, now);
    assert forall f :: f in w'.life.attempts && f != w.life.next ==> f in w.life.attempts;
  }

  lemma PassedOnTwice(cfg: Config, w: World, w1: World, w2: World)
    requires NamesPassedOn(cfg, w, w1, {}) && NamesPassedOn(cfg, w1, w2, {})
    ensures NamesPassedOn(cfg, w, w2, {})
  {
    forall f | f in w2.life.attempts && f !in w1.life.attempts
      ensures exists id :: id in w.recs && w.recs[id].name == w2.life.attempts[f].name
    {
      var id :| id in w1.recs && w1.recs[id].name == w2.life.attempts[f].name;
      assert id in w.recs;
    }
  }

  lemma {:induction false} DrainPassesNames(cfg: Config, w: World, now: int)
    ensures NamesPassedOn(cfg, w, DrainLoop(cfg, w, now), {})
    decreases |w.queue|
  {
    if w.running < cfg.RunLimit() && |w.queue| > 0 {
      var w1 := w.(queue := w.queue[1..]);
      if Startable(w1, w.queue[0]) {
        var w2 := Start(cfg, w1, w.queue[0], now);
        StartPassesNames(cfg, w1, w.queue[0], now);
        DrainPassesNames(cfg, w2, now);
        PassedOnTwice(cfg, w1, w2, DrainLoop(cfg, w2, now));
      } else {
        DrainPassesNames(cfg, w1, now);
      }
    }
  }

  function NameIn(e: Event): set<F.Text> {
    if e.ECreate? || e.EDirectCall? then {e.name} else {}
  }

  lemma CreatePassesNames(cfg: Config, w: World, id: JobId, name: F.Text, now: int)
    requires id !in w.recs
    ensures NamesPassedOn(cfg, w, Create(cfg, w, id, name, now), {name})
  {
    assert Create(cfg, w, id, name, now).life == w.life;
  }

  lemma DirectCallPassesNames(cfg: Config, w: World, name: F.Text)
    ensures NamesPassedOn(cfg, w, DirectCall(cfg, w, name), {name})
  {
    var w' := DirectCall(cfg, w, name);
    assert w'.recs == w.recs;
    assert forall f :: f in w'.life.attempts && f != w.life.next ==> f in w.life.attempts;
  }

  ghost predicate SameNames(w: World, w': World) {
    && w'.life.attempts == w.life.attempts
    && forall id :: id in w'.recs ==> id in w.recs && w'.recs[id].name == w.recs[id].name
  }

  lemma CancelKeepsNames(w: World, id: JobId, now: int)
    ensures SameNames(w, Cancel(w, id, now))
  {
  }

  lemma ResponseKeepsNames(w: World, id: JobId, h: nat, now: int, ttl: int)
    ensures SameNames(w, Consume(w, id)) && SameNames(w, Deliver(w, h, now)) && SameNames(w, Sweep(w, now, ttl))
  {
  }

  lemma SettlingKeepsNames(w: World, f: FlightId, ok: bool, now: int)
    ensures SameNames(w, DownloaderSettles(w, f, ok)) && SameNames(w, RunSettles(w, f, now))
    ensures SameNames(w, DirectDelivered(w, f))
  {
  }

  lemma QuietPassesNames(cfg: Config, w: World, e: Event)
    requires !e.ECreate? && !e.EDirectCall? && !e.EDrain?
    ensures SameNames(w, Step(cfg, w, e))
  {
    match e
    case ECancel(id, now) => CancelKeepsNames(w, id, now);
    case EConsume(id) => ResponseKeepsNames(w, id, 0, 0, 0);
    case EDeliver(h, now) => ResponseKeepsNames(w, 0, h, now, 0);
    case ESweep(now, ttl) => ResponseKeepsNames(w, 0, 0, now, ttl);
    case EDownloader(f, ok) => SettlingKeepsNames(w, f, ok, 0);
    case ERun(f, now) => SettlingKeepsNames(w, f, true, now);
    case EDirectDelivered(f) => SettlingKeepsNames(w, f, true, 0);
  }

  lemma StepPassesNames(cfg: Config, w: World, e: Event)
    ensures NamesPassedOn(cfg, w, Step(cfg, w, e), NameIn(e))
  {
    if e.ECreate? {
      if e.id !in w.recs { CreatePassesNames(cfg, w, e.id, e.name, e.now); }
    } else if e.EDirectCall? {
      DirectCallPassesNames(cfg, w, e.name);
    } else if e.EDrain? {
      if w.drain { DrainPassesNames(cfg, w.(drain := false), e.now); }
    } else {
      QuietPassesNames(cfg, w, e);
    }
  }

  lemma {:induction false} AfterExplains(cfg: Config, w: World, es: seq<Event>)
    requires AttemptsExplained(cfg, w)
    ensures AttemptsExplained(cfg, After(cfg, w, es))
    ensures NamesWellFormed(w) && (forall i :: 0 <= i < |es| ==> GoodRequest(es[i])) ==> NamesWellFormed(After(cfg, w, es))
    decreases |es|
  {
    if es != [] {
      StepPassesNames(cfg, w, es[0]);
      AfterExplains(cfg, Step(cfg, w, es[0]), es[1..]);
    }
  }

  /**
   No directory is leaked exactly as long as no name that cannot be encoded reached a setup whose
   directory had been created: such a name makes the path computation throw before the `try`.
   */
  lemma NoOrphanIff(cfg: Config, es: seq<Event>)
    ensures var w := Reached(cfg, es);
            NoOrphan(w) <==> forall f :: f in w.life.attempts && cfg.mkdir(f) ==> R.WellFormed(w.life.attempts[f].name)
  {
    var w := Reached(cfg, es);
    ReachedInv(cfg, es);
    AfterExplains(cfg, EMPTY_WORLD, es);
    forall f | f in w.life.attempts
      ensures cfg.mkdir(f) && !R.WellFormed(w.life.attempts[f].name) <==> SetupAt(w.life, f) == PathThrew
    {
      SetupOfIff(cfg.mkdir(f), w.life.attempts[f].name);
    }
    forall d | SetupAt(w.life, d) == PathThrew ensures Unremoved(w.life, d) && !HasOwner(w, d) {
      assert d in w.life.dirs;
    }
    forall d | Unremoved(w.life, d) && !HasOwner(w, d) ensures SetupAt(w.life, d) == PathThrew {
      assert SetupAt(w.life, d) != SetupOk;
    }
  }

  /** So a service whose callers only ask for names that can be encoded never leaks a directory. */
  lemma WellFormedNamesNeverLeak(cfg: Config, es: seq<Event>)
    requires forall i :: 0 <= i < |es| ==> GoodRequest(es[i])
    ensures NoOrphan(Reached(cfg, es))
  {
    AfterExplains(cfg, EMPTY_WORLD, es);
    NoOrphanIff(cfg, es);
  }

  /** And a single direct download under any other name leaks one, whatever the limits. */
  lemma IllFormedNameLeaks(cfg: Config, name: F.Text)
    requires cfg.mkdir(0) && !R.WellFormed(name)
    ensures !NoOrphan(Reached(cfg, [EDirectCall(name)]))
  {
    var es := [EDirectCall(name)];
    var w := Step(cfg, EMPTY_WORLD, es[0]);
    assert Reached(cfg, es) == w by {
      assert After(cfg, w, es[1..]) == w;
    }
    assert 0 in w.life.attempts && w.life.attempts[0].name == name;
    NoOrphanIff(cfg, es);
  }

  /**
   Once nothing is in flight, a sweep past every record's time to live has removed every directory
   exactly once, except exactly those whose path threw right after they were created.
   */
  lemma SweepReclaimsEverything(cfg: Config, w: World, now: int, ttl: int)
    requires Inv(cfg, w) && w.life.flights == map[]
    requires forall id :: id in w.jobs && id in w.recs && w.recs[id].artifact.Some? ==> now - w.recs[id].updatedAt >= ttl
    ensures Sweep(w, now, ttl).life.dirs.Keys == w.life.dirs.Keys
    ensures forall d :: d in w.life.dirs ==>
              (Sweep(w, now, ttl).life.dirs[d].removals == 1 <==> SetupAt(w.life, d) != PathThrew)
  {
    var w' := Sweep(w, now, ttl);
    SweepKeepsStorage(cfg, w, now, ttl);
    forall d | d in w.life.dirs
      ensures w'.life.dirs[d].cleaned <==> SetupAt(w.life, d) != PathThrew
    {
      assert SetupAt(w'.life, d) == SetupAt(w.life, d);
      assert !OwnedByFlight(w.life, d);
      if !w.life.dirs[d].cleaned && SetupAt(w.life, d) == SetupOk {
        var id :| HeldByJob(w, id, d);
        assert Sweepable(w, id, now, ttl);
        assert id in Swept(w, now, ttl);
      }
    }
  }

  // ---- limiters ----

  /** Both counters count exactly what they are for, and neither passes its limit. */
  lemma LimitsHold(cfg: Config, es: seq<Event>)
    ensures var w := Reached(cfg, es);
            && w.running == |RunFlights(w)| <= cfg.RunLimit()
            && w.life.active == |InPhaseDownloading(w.life)| + |w.life.lost|
            && (cfg.concurrencyLimit.Some? ==> w.life.active <= cfg.concurrencyLimit.value)
  {
    ReachedInv(cfg, es);
  }

  /** A slot lost to a throwing setup never comes back. */
  lemma LostSlotsStay(cfg: Config, w: World, e: Event)
    ensures w.life.lost <= Step(cfg, w, e).life.lost
  {
    if e.EDrain? && w.drain {
      DrainKeepsLost(cfg, w.(drain := false), e.now);
    }
  }

  lemma {:induction false} DrainKeepsLost(cfg: Config, w: World, now: int)
    ensures w.life.lost <= DrainLoop(cfg, w, now).life.lost
    decreases |w.queue|
  {
    if w.running < cfg.RunLimit() && |w.queue| > 0 {
      var w1 := w.(queue := w.queue[1..]);
      if Startable(w1, w.queue[0]) {
        DrainKeepsLost(cfg, Start(cfg, w1, w.queue[0], now), now);
      } else {
        DrainKeepsLost(cfg, w1, now);
      }
    }
  }

  /** When throwing setups have used up the configured limit, no download ever runs again. */
  lemma {:induction false} ExhaustedSlotsAreFinal(cfg: Config, w: World, es: seq<Event>)
    requires Inv(cfg, w) && cfg.concurrencyLimit.Some? && |w.life.lost| >= cfg.concurrencyLimit.value
    ensures InPhaseDownloading(After(cfg, w, es).life) == {}
    decreases |es|
  {
    if es == [] {
      assert |InPhaseDownloading(w.life)| == 0;
    } else {
      var w1 := Step(cfg, w, es[0]);
      StepKeeps(cfg, w, es[0]);
      LostSlotsStay(cfg, w, es[0]);
      SubsetSize(w.life.lost, w1.life.lost);
      ExhaustedSlotsAreFinal(cfg, w1, es[1..]);
    }
  }

  function Repeat(e: Event, n: nat): seq<Event> {
    if n == 0 then [] else [e] + Repeat(e, n - 1)
  }

  ghost predicate LostAreOlder(l: Lifecycle) {
    forall f :: f in l.lost ==> f < l.next
  }

  /** A direct download whose setup throws, in a slot that was free. */
  lemma ThrowingSetupTakesSlot(cfg: Config, w: World, name: F.Text)
    requires LostAreOlder(w.life) && SlotAvailable(w.life, cfg.SlotLimit())
    requires cfg.AttemptOf(w.life.next, name).setup != SetupOk
    ensures var l := DirectCall(cfg, w, name).life;
            && LostAreOlder(l) && l.next == w.life.next + 1
            && l.active == w.life.active + 1 && |l.lost| == |w.life.lost| + 1
  {
    var attempt := cfg.AttemptOf(w.life.next, name);
    CardAdd(w.life.lost, w.life.next, Begin(w.life, cfg.SlotLimit(), attempt, Direct).lost);
  }

  function DirectCalls(cfg: Config, w: World, name: F.Text, n: nat): World
    decreases n
  {
    if n == 0 then w else DirectCalls(cfg, DirectCall(cfg, w, name), name, n - 1)
  }

  lemma {:induction false} RepeatedCalls(cfg: Config, w: World, name: F.Text, n: nat)
    ensures After(cfg, w, Repeat(EDirectCall(name), n)) == DirectCalls(cfg, w, name, n)
    decreases n
  {
    if n > 0 {
      AfterSplit(cfg, w, EDirectCall(name), Repeat(EDirectCall(name), n - 1));
      RepeatedCalls(cfg, DirectCall(cfg, w, name), name, n - 1);
    }
  }

  /** The setups of the next `n` calls under this name throw. */
  ghost predicate SetupsThrow(cfg: Config, name: F.Text, from: nat, n: nat) {
    forall f :: from <= f < from + n ==> cfg.AttemptOf(f, name).setup != SetupOk
  }

  lemma {:induction false} ThrowingSetupsTakeSlots(cfg: Config, w: World, name: F.Text, n: nat)
    requires LostAreOlder(w.life) && SetupsThrow(cfg, name, w.life.next, n)
    requires cfg.concurrencyLimit.Some? && w.life.active + n <= cfg.concurrencyLimit.value
    ensures |DirectCalls(cfg, w, name, n).life.lost| == |w.life.lost| + n
    decreases n
  {
    if n > 0 {
      ThrowingSetupTakesSlot(cfg, w, name);
      ThrowingSetupsTakeSlots(cfg, DirectCall(cfg, w, name), name, n - 1);
    }
  }

  lemma {:induction false} AfterConcat(cfg: Config, w: World, a: seq<Event>, b: seq<Event>)
    ensures After(cfg, w, a + b) == After(cfg, After(cfg, w, a), b)
    decreases |a|
  {
    if a == [] {
      assert a + b == b;
    } else {
      AfterConcat(cfg, Step(cfg, w, a[0]), a[1..], b);
      assert (a + b)[1..] == a[1..] + b;
    }
  }

  /**
   For every limit: as many downloads as the limit whose setups throw, because the directory cannot
   be created or the name cannot be encoded, stop the service for good.
   */
  lemma ThrowingSetupsStopService(cfg: Config, name: F.Text, more: seq<Event>)
    requires cfg.concurrencyLimit.Some?
    requires forall f :: 0 <= f < cfg.concurrencyLimit.value ==> !cfg.mkdir(f) || !R.WellFormed(name)
    ensures var stop := Repeat(EDirectCall(name), cfg.concurrencyLimit.value);
            InPhaseDownloading(Reached(cfg, stop + more).life) == {}
  {
    var stop := Repeat(EDirectCall(name), cfg.concurrencyLimit.value);
    EmptyInv(cfg);
    forall f: nat | f < cfg.concurrencyLimit.value ensures cfg.AttemptOf(f, name).setup != SetupOk {
      SetupOfIff(cfg.mkdir(f), name);
    }
    RepeatedCalls(cfg, EMPTY_WORLD, name, cfg.concurrencyLimit.value);
    ThrowingSetupsTakeSlots(cfg, EMPTY_WORLD, name, cfg.concurrencyLimit.value);
    AfterKeeps(cfg, EMPTY_WORLD, stop);
    ExhaustedSlotsAreFinal(cfg, Reached(cfg, stop), more);
    AfterConcat(cfg, EMPTY_WORLD, stop, more);
  }

  /** In particular: names that cannot be encoded, whatever the directories. */
  lemma BadNamesStopService(cfg: Config, name: F.Text, more: seq<Event>)
    requires cfg.concurrencyLimit.Some? && !R.WellFormed(name)
    ensures var stop := Repeat(EDirectCall(name), cfg.concurrencyLimit.value);
            InPhaseDownloading(Reached(cfg, stop + more).life) == {}
  {
    ThrowingSetupsStopService(cfg, name, more);
  }

  /** And a temporary directory that cannot be created as often as the limit, even if it can be later. */
  lemma FailedMkdirsStopService(cfg: Config, name: F.Text, more: seq<Event>)
    requires cfg.concurrencyLimit.Some? && forall f :: 0 <= f < cfg.concurrencyLimit.value ==> !cfg.mkdir(f)
    ensures var stop := Repeat(EDirectCall(name), cfg.concurrencyLimit.value);
            InPhaseDownloading(Reached(cfg, stop + more).life) == {}
  {
    ThrowingSetupsStopService(cfg, name, more);
  }

  lemma SubsetSize<T>(a: set<T>, b: set<T>)
    requires a <= b
    ensures |a| <= |b|
  {
    assert b == a + (b - a);
  }

  /** Only the queue calls `download`, and no call of it was refused or lost its slot. */
  predicate QueueOnly(w: World) {
    && w.life.lost == {}
    && forall f :: f in w.life.flights ==>
         w.life.flights[f].caller.QueueRun? && w.life.flights[f].phase != Threw(TooManyActive)
  }

  predicate Refused(l: Lifecycle, f: FlightId) {
    f in l.flights && l.flights[f].phase == Threw(TooManyActive)
  }

  /** From `l` to `l'` only new flights came, numbered on, and one is refused exactly when the slots before it are full. */
  ghost predicate RefusesWhenFull(l: Lifecycle, l': Lifecycle, limit: Option<nat>) {
    && l.next <= l'.next
    && (forall f :: 0 <= f < l.next ==> (Refused(l', f) <==> Refused(l, f)))
    && (forall f :: l.next <= f < l'.next ==>
          f in l'.flights && (Refused(l', f) <==> limit.Some? && l.active + (f - l.next) >= limit.value))
  }

  lemma BeginRefuses(l: Lifecycle, limit: Option<nat>, attempt: Attempt, caller: Caller)
    ensures var l' := Begin(l, limit, attempt, caller);
            && RefusesWhenFull(l, l', limit) && l'.next == l.next + 1
            && l'.active == if SlotAvailable(l, limit) then l.active + 1 else l.active
  {
  }

  /** In any state, the drain loop's included, the inner guard refuses the job launched next exactly when its slots are taken. */
  lemma LaunchRefusedIff(cfg: Config, w: World, now: int)
    requires SlotInv(w.life, cfg.SlotLimit()) && |w.queue| > 0 && w.queue[0] in w.recs
    ensures Launch(cfg, w, now).life.flights[w.life.next].phase == Threw(TooManyActive)
            <==> cfg.concurrencyLimit.Some? &&
                 |InPhaseDownloading(w.life)| + |w.life.lost| >= cfg.concurrencyLimit.value
  {
    var id := w.queue[0];
    BeginRefuses(w.life, cfg.SlotLimit(), cfg.AttemptOf(w.life.next, w.recs[id].name), QueueRun(id));
  }

  lemma RefusesChain(l: Lifecycle, l1: Lifecycle, l2: Lifecycle, limit: Option<nat>)
    requires RefusesWhenFull(l, l1, limit) && RefusesWhenFull(l1, l2, limit)
    requires l1.next == l.next + 1 && l1.active == if SlotAvailable(l, limit) then l.active + 1 else l.active
    requires forall f :: f in l1.flights ==> f < l1.next
    requires forall f :: 0 <= f < l1.next ==> (f in l2.flights <==> f in l1.flights)
    ensures RefusesWhenFull(l, l2, limit)
  {
  }

  lemma {:induction false} DrainLoopRefuses(cfg: Config, w: World, now: int)
    requires SlotInv(w.life, cfg.SlotLimit())
    ensures RefusesWhenFull(w.life, DrainLoop(cfg, w, now).life, cfg.SlotLimit())
    ensures forall f :: 0 <= f < w.life.next ==> (f in DrainLoop(cfg, w, now).life.flights <==> f in w.life.flights)
    decreases |w.queue|
  {
    if w.running < cfg.RunLimit() && |w.queue| > 0 {
      var id, w1 := w.queue[0], w.(queue := w.queue[1..]);
      if Startable(w1, id) {
        var attempt := cfg.AttemptOf(w.life.next, w.recs[id].name);
        BeginRefuses(w.life, cfg.SlotLimit(), attempt, QueueRun(id));
        BeginKeepsSlots(w.life, cfg.SlotLimit(), attempt, QueueRun(id));
        var w2 := Start(cfg, w1, id, now);
        assert w2.life == Begin(w.life, cfg.SlotLimit(), attempt, QueueRun(id));
        DrainLoopRefuses(cfg, w2, now);
        RefusesChain(w.life, w2.life, DrainLoop(cfg, w2, now).life, cfg.SlotLimit());
      } else {
        DrainLoopRefuses(cfg, w1, now);
      }
    }
  }

  /**
   Over every run, of the jobs one drain launches the inner guard refuses exactly those for which the
   pending downloads, the lost slots and the earlier launches of that drain fill the limit.
   */
  lemma DrainRefusesIff(cfg: Config, es: seq<Event>, now: int, f: FlightId)
    requires Reached(cfg, es).drain
    requires Reached(cfg, es).life.next <= f < Step(cfg, Reached(cfg, es), EDrain(now)).life.next
    ensures var w := Reached(cfg, es);
            Refused(Step(cfg, w, EDrain(now)).life, f) <==>
              cfg.concurrencyLimit.Some?
              && |InPhaseDownloading(w.life)| + |w.life.lost| + (f - w.life.next) >= cfg.concurrencyLimit.value
  {
    var w := Reached(cfg, es);
    ReachedInv(cfg, es);
    DrainLoopRefuses(cfg, w.(drain := false), now);
  }

  lemma LaunchKeepsQueueOnly(cfg: Config, w: World, now: int)
    requires DrainingInv(cfg, w) && QueueOnly(w) && |w.queue| > 0 && w.running < cfg.RunLimit()
    requires w.queue[0] in w.recs && cfg.AttemptOf(w.life.next, w.recs[w.queue[0]].name).setup == SetupOk
    ensures QueueOnly(Launch(cfg, w, now))
  {
    SubsetSize(InPhaseDownloading(w.life), RunFlights(w));
  }

  /** Every directory can be created and every queued name encoded, so no setup throws. */
  ghost predicate SetupsSucceed(cfg: Config, w: World) {
    && (forall f :: cfg.mkdir(f))
    && (forall id :: id in w.recs ==> R.WellFormed(w.recs[id].name))
  }

  lemma {:induction false} DrainKeepsQueueOnly(cfg: Config, w: World, now: int)
    requires DrainingInv(cfg, w) && QueueOnly(w) && SetupsSucceed(cfg, w)
    ensures QueueOnly(DrainLoop(cfg, w, now))
    decreases |w.queue|
  {
    if w.running < cfg.RunLimit() && |w.queue| > 0 {
      HeadIsStartable(cfg, w);
      SetupOfIff(cfg.mkdir(w.life.next), w.recs[w.queue[0]].name);
      LaunchKeeps(cfg, w, now);
      LaunchKeepsQueueOnly(cfg, w, now);
      StartPassesNames(cfg, w.(queue := w.queue[1..]), w.queue[0], now);
      DrainKeepsQueueOnly(cfg, Launch(cfg, w, now), now);
    }
  }

  lemma SettlingKeepsQueueOnly(cfg: Config, w: World, f: FlightId, ok: bool, now: int)
    requires QueueOnly(w)
    ensures QueueOnly(DownloaderSettles(w, f, ok)) && QueueOnly(RunSettles(w, f, now))
  {
    if Settling(w, f) {
      assert RunSettles(w, f, now).life.flights == w.life.flights - {f};
    }
  }

  lemma RequestsKeepQueueOnly(w: World, id: JobId, h: nat, now: int, ttl: int)
    requires QueueOnly(w)
    ensures QueueOnly(Cancel(w, id, now)) && QueueOnly(Consume(w, id))
    ensures QueueOnly(Deliver(w, h, now)) && QueueOnly(Sweep(w, now, ttl))
  {
    assert Cancel(w, id, now).life.flights == w.life.flights && Cancel(w, id, now).life.lost == {};
    assert Consume(w, id).life == w.life;
    assert Deliver(w, h, now).life.flights == w.life.flights && Deliver(w, h, now).life.lost == {};
  }

  lemma StepKeepsQueueOnly(cfg: Config, w: World, e: Event)
    requires Inv(cfg, w) && QueueOnly(w) && !e.EDirectCall? && SetupsSucceed(cfg, w)
    ensures QueueOnly(Step(cfg, w, e))
  {
    match e
    case ECreate(id, name, now) =>
    case EDrain(now) =>
      if w.drain {
        UndrainedInv(cfg, w);
        DrainKeepsQueueOnly(cfg, w.(drain := false), now);
      }
    case ECancel(id, now) => RequestsKeepQueueOnly(w, id, 0, now, 0);
    case EConsume(id) => RequestsKeepQueueOnly(w, id, 0, 0, 0);
    case EDeliver(h, now) => RequestsKeepQueueOnly(w, 0, h, now, 0);
    case ESweep(now, ttl) => RequestsKeepQueueOnly(w, 0, 0, now, ttl);
    case ERun(f, now) => SettlingKeepsQueueOnly(cfg, w, f, true, now);
    case EDownloader(f, ok) => SettlingKeepsQueueOnly(cfg, w, f, ok, 0);
    case EDirectDelivered(f) =>
  }

  lemma QueueOnlyStep(cfg: Config, w: World, e: Event)
    requires Inv(cfg, w) && QueueOnly(w) && SetupsSucceed(cfg, w) && !e.EDirectCall? && GoodRequest(e)
    ensures var w' := Step(cfg, w, e);
            Inv(cfg, w') && QueueOnly(w') && SetupsSucceed(cfg, w')
  {
    StepKeeps(cfg, w, e);
    StepKeepsQueueOnly(cfg, w, e);
    StepPassesNames(cfg, w, e);
  }

  lemma {:induction false} AfterKeepsQueueOnly(cfg: Config, w: World, es: seq<Event>)
    requires Inv(cfg, w) && QueueOnly(w) && SetupsSucceed(cfg, w)
    requires forall i :: 0 <= i < |es| ==> !es[i].EDirectCall? && GoodRequest(es[i])
    ensures QueueOnly(After(cfg, w, es))
    decreases |es|
  {
    if es != [] {
      QueueOnlyStep(cfg, w, es[0]);
      AfterKeepsQueueOnly(cfg, Step(cfg, w, es[0]), es[1..]);
    }
  }

  /** With only the queue calling, directories that can be created and names that can be encoded, the inner guard never fires. */
  lemma InnerGuardNeverFires(cfg: Config, es: seq<Event>, f: FlightId)
    requires forall g :: cfg.mkdir(g)
    requires forall i :: 0 <= i < |es| ==> !es[i].EDirectCall? && GoodRequest(es[i])
    requires f in Reached(cfg, es).life.flights
    ensures Reached(cfg, es).life.flights[f].phase != Threw(TooManyActive)
  {
    EmptyInv(cfg);
    AfterKeepsQueueOnly(cfg, EMPTY_WORLD, es);
  }

  lemma DrainOfOne(cfg: Config, w: World, id: JobId, now: int)
    requires w.queue == [id] && w.running < cfg.RunLimit() && Startable(w, id)
    ensures DrainLoop(cfg, w, now) == Start(cfg, w.(queue := []), id, now)
  {
    assert w.queue[1..] == [];
    assert DrainLoop(cfg, Start(cfg, w.(queue := []), id, now), now) == Start(cfg, w.(queue := []), id, now);
  }

  lemma AfterSplit(cfg: Config, w: World, e: Event, es: seq<Event>)
    ensures After(cfg, w, [e] + es) == After(cfg, Step(cfg, w, e), es)
  {
    assert ([e] + es)[1..] == es;
  }

  /** A single direct request is enough to make the inner guard refuse a job the queue had room for. */
  lemma DirectCallStarvesQueue()
    ensures var cfg := Config(Some(1), None, _ => true);
            var w := Reached(cfg, [EDirectCall([])] + ([ECreate(0, [], 0)] + ([EDrain(0)] + [])));
            1 in w.life.flights && w.life.flights[1] == Flight(QueueRun(0), Threw(TooManyActive))
  {
    var cfg := Config(Some(1), None, _ => true);
    AfterSplit(cfg, EMPTY_WORLD, EDirectCall([]), [ECreate(0, [], 0)] + ([EDrain(0)] + []));
    var w1 := Step(cfg, EMPTY_WORLD, EDirectCall([]));
    assert w1.life.active == 1 && w1.life.next == 1 && w1.running == 0 && w1.queue == [];
    AfterSplit(cfg, w1, ECreate(0, [], 0), [EDrain(0)] + []);
    var w2 := Step(cfg, w1, ECreate(0, [], 0));
    assert w2.queue == [0] && w2.drain && w2.life == w1.life && w2.running == 0;
    AfterSplit(cfg, w2, EDrain(0), []);
    DrainOfOne(cfg, w2.(drain := false), 0, 0);
  }

  // ---- order ----

  /** Jobs start in creation order; those missing are the ones canceled in the queue or still waiting. */
  lemma StartsFollowCreation(cfg: Config, es: seq<Event>)
    ensures var w := Reached(cfg, es);
            && w.started <= Without(w.created, w.dropped)
            && w.queue == Without(w.created, w.dropped)[|w.started|..]
            && Distinct(w.created) && Distinct(w.queue)
            && (forall id :: id in w.queue <==> id in w.recs && w.recs[id].status.Queued?)
  {
    ReachedInv(cfg, es);
  }

  lemma CancelDrops(w: World, id: JobId, now: int)
    requires QueueInv(w)
    ensures Cancel(w, id, now).dropped == if id in w.queue then w.dropped + {id} else w.dropped
  {
    assert id in w.queue <==> id in w.recs && w.recs[id].status.Queued?;
  }

  lemma OthersDropNothing(cfg: Config, w: World, e: Event)
    requires !e.EDrain? && !e.ECancel?
    ensures Step(cfg, w, e).dropped == w.dropped
  {
  }

  /** A queued job is only ever passed over by cancelling it. */
  lemma DroppedOnlyByCancel(cfg: Config, w: World, e: Event)
    requires Inv(cfg, w)
    ensures Step(cfg, w, e).dropped ==
            if e.ECancel? && e.id in w.queue then w.dropped + {e.id} else w.dropped
  {
    if e.EDrain? {
      if w.drain { DrainKeepsDropped(cfg, w.(drain := false), e.now); }
    } else if e.ECancel? {
      CancelDrops(w, e.id, e.now);
    } else {
      OthersDropNothing(cfg, w, e);
    }
  }

  lemma {:induction false} DrainKeepsDropped(cfg: Config, w: World, now: int)
    ensures DrainLoop(cfg, w, now).dropped == w.dropped && DrainLoop(cfg, w, now).created == w.created
    decreases |w.queue|
  {
    if w.running < cfg.RunLimit() && |w.queue| > 0 {
      var w1 := w.(queue := w.queue[1..]);
      if Startable(w1, w.queue[0]) {
        DrainKeepsDropped(cfg, Start(cfg, w1, w.queue[0], now), now);
      } else {
        DrainKeepsDropped(cfg, w1, now);
      }
    }
  }

  // ---- wakeups and progress ----

  /** A turn the process can take by itself: the drain, a downloader's end, a run's end. */
  predicate InternalEnabled(w: World, e: Event) {
    match e
    case EDrain(_) => w.drain
    case EDownloader(f, _) => Awaiting(w, f) && w.life.flights[f].caller.QueueRun?
    case ERun(f, _) => Settling(w, f)
    case _ => false
  }

  ghost predicate Quiescent(w: World) {
    forall e :: !InternalEnabled(w, e)
  }

  /** A process with nothing left to do by itself has an empty queue. */
  lemma QuiescentQueueIsEmpty(cfg: Config, es: seq<Event>)
    requires Quiescent(Reached(cfg, es))
    ensures Reached(cfg, es).queue == []
  {
    var w := Reached(cfg, es);
    ReachedInv(cfg, es);
    assert !InternalEnabled(w, EDrain(0));
    forall f ensures f !in RunFlights(w) {
      assert !InternalEnabled(w, EDownloader(f, true)) && !InternalEnabled(w, ERun(f, 0));
      if f in RunFlights(w) {
        assert IsRunOf(w, f, w.life.flights[f].caller.job);
      }
    }
    assert RunFlights(w) == {};
  }

  function RunsDownloading(w: World): set<FlightId> {
    set f | f in w.life.flights && w.life.flights[f].caller.QueueRun? && w.life.flights[f].phase.Downloading?
  }

  function Measure(w: World): int {
    4 * |w.queue| + 2 * w.running + |RunsDownloading(w)| + (if w.drain then 1 else 0)
  }

  lemma LaunchAddsOneRun(cfg: Config, w: World, now: int)
    requires |w.queue| > 0 && w.queue[0] in w.recs && w.life.next !in w.life.flights
    ensures |RunsDownloading(Launch(cfg, w, now))| <= |RunsDownloading(w)| + 1
  {
    var before, after := RunsDownloading(w), RunsDownloading(Launch(cfg, w, now));
    if w.life.next in after {
      CardAdd(before, w.life.next, after);
    } else {
      assert after == before;
    }
  }

  lemma LaunchLowers(cfg: Config, w: World, now: int)
    requires DrainingInv(cfg, w) && |w.queue| > 0 && w.queue[0] in w.recs
    ensures Measure(Launch(cfg, w, now)) < Measure(w)
  {
    assert w.life.next !in w.life.flights;
    LaunchAddsOneRun(cfg, w, now);
  }

  lemma {:induction false} DrainLoopLowers(cfg: Config, w: World, now: int)
    requires DrainingInv(cfg, w)
    ensures Measure(DrainLoop(cfg, w, now)) <= Measure(w)
    decreases |w.queue|
  {
    if w.running < cfg.RunLimit() && |w.queue| > 0 {
      HeadIsStartable(cfg, w);
      LaunchKeeps(cfg, w, now);
      LaunchLowers(cfg, w, now);
      DrainLoopLowers(cfg, Launch(cfg, w, now), now);
    }
  }

  lemma DrainLowers(cfg: Config, w: World, now: int)
    requires Inv(cfg, w) && w.drain
    ensures Measure(DrainTask(cfg, w, now)) < Measure(w)
  {
    var w1 := w.(drain := false);
    assert RunsDownloading(w1) == RunsDownloading(w);
    UndrainedInv(cfg, w);
    DrainLoopLowers(cfg, w1, now);
  }

  lemma DownloaderLowers(cfg: Config, w: World, f: FlightId, ok: bool)
    requires Awaiting(w, f)
    ensures var w' := DownloaderSettles(w, f, ok);
            Measure(w') == Measure(w) - (if w.life.flights[f].caller.QueueRun? then 1 else 0)
  {
    var w' := DownloaderSettles(w, f, ok);
    if w.life.flights[f].caller.QueueRun? {
      CardRemove(RunsDownloading(w), f, RunsDownloading(w'));
    } else {
      assert RunsDownloading(w') == RunsDownloading(w);
    }
  }

  lemma RunLowers(cfg: Config, w: World, f: FlightId, now: int)
    requires RunInv(cfg, w) && ArtifactInv(cfg, w) && Settling(w, f)
    ensures Measure(RunSettles(w, f, now)) < Measure(w)
  {
    RunShape(cfg, w, f, now);
    assert RunsDownloading(RunSettles(w, f, now)) == RunsDownloading(w);
  }

  /** Every internal turn strictly lowers the measure. */
  lemma InternalStepLowers(cfg: Config, w: World, e: Event)
    requires Inv(cfg, w) && InternalEnabled(w, e)
    ensures Measure(Step(cfg, w, e)) < Measure(w)
  {
    match e
    case EDrain(now) => DrainLowers(cfg, w, now);
    case EDownloader(f, ok) => DownloaderLowers(cfg, w, f, ok);
    case ERun(f, now) => RunLowers(cfg, w, f, now);
    case _ =>
  }

  lemma SameWorkSameMeasure(w: World, w': World)
    requires |w'.queue| <= |w.queue| && w'.running == w.running && w'.drain == w.drain
    requires forall f :: f in RunsDownloading(w') <==> f in RunsDownloading(w)
    ensures Measure(w') <= Measure(w)
  {
    assert RunsDownloading(w') == RunsDownloading(w);
  }

  lemma CancelNeverRaises(w: World, id: JobId, now: int)
    ensures Measure(Cancel(w, id, now)) <= Measure(w)
  {
    SameWorkSameMeasure(w, Cancel(w, id, now));
  }

  lemma DirectCallNeverRaises(cfg: Config, w: World, name: F.Text)
    requires RunInv(cfg, w)
    ensures Measure(DirectCall(cfg, w, name)) <= Measure(w)
  {
    SameWorkSameMeasure(w, DirectCall(cfg, w, name));
  }

  /** Requests that neither touch the queue nor a run. */
  lemma QuietRequestSameMeasure(cfg: Config, w: World, e: Event)
    requires e.EConsume? || e.EDeliver? || e.ESweep?
    ensures Measure(Step(cfg, w, e)) == Measure(w)
  {
    var w' := Step(cfg, w, e);
    assert w'.queue == w.queue && w'.running == w.running && w'.drain == w.drain;
    SameWorkSameMeasure(w, w');
  }

  lemma DirectDeliveryNeverRaises(w: World, f: FlightId)
    ensures Measure(DirectDelivered(w, f)) <= Measure(w)
  {
    SameWorkSameMeasure(w, DirectDelivered(w, f));
  }

  /** No external turn except a new job raises it. */
  lemma ExternalStepNeverRaises(cfg: Config, w: World, e: Event)
    requires Inv(cfg, w) && !e.ECreate? && !InternalEnabled(w, e)
    ensures Measure(Step(cfg, w, e)) <= Measure(w)
  {
    if e.ECancel? {
      CancelNeverRaises(w, e.id, e.now);
    } else if e.EDirectCall? {
      DirectCallNeverRaises(cfg, w, e.name);
    } else if e.EDirectDelivered? {
      DirectDeliveryNeverRaises(w, e.f);
    } else if e.EConsume? || e.EDeliver? || e.ESweep? {
      QuietRequestSameMeasure(cfg, w, e);
    } else if e.EDownloader? && Awaiting(w, e.f) {
      DownloaderLowers(cfg, w, e.f, e.ok);
    }
  }

  lemma MeasureIsNonNegative(cfg: Config, w: World)
    requires Inv(cfg, w)
    ensures Measure(w) >= 0
  {
  }

  /** How many of the turns in `es` were internal ones, taken while enabled. */
  function InternalTurns(cfg: Config, w: World, es: seq<Event>): nat
    decreases |es|
  {
    if es == [] then 0
    else (if InternalEnabled(w, es[0]) then 1 else 0) + InternalTurns(cfg, Step(cfg, w, es[0]), es[1..])
  }

  /** Without new jobs the service takes at most `Measure(w)` turns by itself, however requests interleave. */
  lemma {:induction false} InternalTurnsBounded(cfg: Config, w: World, es: seq<Event>)
    requires Inv(cfg, w) && forall i :: 0 <= i < |es| ==> !es[i].ECreate?
    ensures InternalTurns(cfg, w, es) + Measure(After(cfg, w, es)) <= Measure(w)
    ensures 0 <= Measure(After(cfg, w, es))
    decreases |es|
  {
    if es == [] {
      MeasureIsNonNegative(cfg, w);
    } else {
      var w1 := Step(cfg, w, es[0]);
      StepKeeps(cfg, w, es[0]);
      if InternalEnabled(w, es[0]) {
        InternalStepLowers(cfg, w, es[0]);
      } else {
        ExternalStepNeverRaises(cfg, w, es[0]);
      }
      InternalTurnsBounded(cfg, w1, es[1..]);
    }
  }

  // ---- statuses ----

  /** The allowed changes of one record's status in one turn. */
  predicate Edge(before: Status, after: Status) {
    || before == after
    || (before == Queued && after in {Running, Canceled})
    || (before == Running && after in {Ready, Failed, Canceled})
    || (before == Ready && after in {Canceled, Expired})
    || (before == Canceled && after == Expired)
  }

  lemma {:induction false} DrainEdges(cfg: Config, w: World, now: int, id: JobId)
    requires id in w.recs
    ensures id in DrainLoop(cfg, w, now).recs
    ensures var (a, b) := (w.recs[id].status, DrainLoop(cfg, w, now).recs[id].status);
            a == b || (a == Queued && b == Running)
    decreases |w.queue|
  {
    if w.running < cfg.RunLimit() && |w.queue| > 0 {
      var w1 := w.(queue := w.queue[1..]);
      if Startable(w1, w.queue[0]) {
        DrainEdges(cfg, Start(cfg, w1, w.queue[0], now), now, id);
      } else {
        DrainEdges(cfg, w1, now, id);
      }
    }
  }

  lemma CancelEdges(w: World, c: JobId, now: int, id: JobId)
    requires id in w.recs
    ensures id in Cancel(w, c, now).recs && Edge(w.recs[id].status, Cancel(w, c, now).recs[id].status)
  {
  }

  lemma RunEdges(cfg: Config, w: World, f: FlightId, now: int, id: JobId)
    requires RunInv(cfg, w) && ArtifactInv(cfg, w) && id in w.recs && Settling(w, f)
    ensures id in RunSettles(w, f, now).recs && Edge(w.recs[id].status, RunSettles(w, f, now).recs[id].status)
  {
    RunRecord(cfg, w, f);
    RunShape(cfg, w, f, now);
  }

  lemma DeliverEdges(cfg: Config, w: World, h: nat, now: int, id: JobId)
    requires HandleInv(cfg, w) && ArtifactInv(cfg, w) && id in w.recs
    ensures id in Deliver(w, h, now).recs && Edge(w.recs[id].status, Deliver(w, h, now).recs[id].status)
  {
  }

  /** Turns that leave the status of every record there is alone. */
  lemma QuietEdges(cfg: Config, w: World, e: Event, id: JobId)
    requires id in w.recs && !e.EDrain? && !e.ERun? && !e.ECancel? && !e.EDeliver?
    ensures id in Step(cfg, w, e).recs && Step(cfg, w, e).recs[id].status == w.recs[id].status
  {
    if e.EConsume? {
      assert id in Consume(w, e.id).recs && Consume(w, e.id).recs[id].status == w.recs[id].status;
    }
  }

  /** Every turn moves every record along an allowed edge, and no record is ever forgotten. */
  lemma StepEdges(cfg: Config, w: World, e: Event, id: JobId)
    requires Inv(cfg, w) && id in w.recs
    ensures id in Step(cfg, w, e).recs && Edge(w.recs[id].status, Step(cfg, w, e).recs[id].status)
  {
    if e.EDrain? {
      if w.drain { DrainEdges(cfg, w.(drain := false), e.now, id); }
    } else if e.ERun? {
      if Settling(w, e.f) { RunEdges(cfg, w, e.f, e.now, id); }
    } else if e.ECancel? {
      CancelEdges(w, e.id, e.now, id);
    } else if e.EDeliver? {
      DeliverEdges(cfg, w, e.h, e.now, id);
    } else {
      QuietEdges(cfg, w, e, id);
    }
  }

  /** `failed` and `expired` are final over every run. */
  lemma {:induction false} FinalStatusesStay(cfg: Config, w: World, es: seq<Event>, id: JobId)
    requires Inv(cfg, w) && id in w.recs && w.recs[id].status in {Failed, Expired}
    ensures id in After(cfg, w, es).recs && After(cfg, w, es).recs[id].status == w.recs[id].status
    decreases |es|
  {
    if es != [] {
      StepKeeps(cfg, w, es[0]);
      StepEdges(cfg, w, es[0], id);
      FinalStatusesStay(cfg, Step(cfg, w, es[0]), es[1..], id);
    }
  }

  /** Consuming succeeds exactly for a ready, unconsumed job; its directory is then still there. */
  lemma ConsumeSucceedsIff(cfg: Config, es: seq<Event>, id: JobId)
    ensures var w := Reached(cfg, es);
            ConsumeResult(w, id).Ok? <==> Known(w, id) && w.recs[id].status.Ready? && !w.recs[id].consumed
    ensures var w := Reached(cfg, es);
            ConsumeResult(w, id).Ok? && Known(w, id) ==>
              Unremoved(w.life, ConsumeResult(w, id).value) && Consume(w, id).recs[id].consumed
  {
    ReachedInv(cfg, es);
    ReadyIsOnDisk(cfg, es, id);
  }

  ghost predicate ReadyDirsIntact(w: World) {
    forall id :: Known(w, id) && w.recs[id].status.Ready? && w.recs[id].artifact.Some? ==>
      Unremoved(w.life, w.recs[id].artifact.value)
  }

  /** A ready job in the map still has its directory on disk, unless its response has removed it. */
  lemma ReadyIsOnDisk(cfg: Config, es: seq<Event>, id: JobId)
    ensures ReadyDirsIntact(Reached(cfg, es))
  {
    ReachedInv(cfg, es);
  }

  /** No job is handed out twice. */
  lemma ConsumedAtMostOnce(cfg: Config, es: seq<Event>, h: nat, k: nat)
    requires h < |Reached(cfg, es).handles| && k < |Reached(cfg, es).handles|
    requires Reached(cfg, es).handles[h].job == Reached(cfg, es).handles[k].job
    ensures h == k
  {
    ReachedInv(cfg, es);
  }

  /** Cancelling a running job has always fired the signal its in-flight download listens to. */
  lemma CanceledRunsAreAborted(cfg: Config, es: seq<Event>, f: FlightId, id: JobId)
    requires IsRunOf(Reached(cfg, es), f, id)
    ensures var w := Reached(cfg, es);
            id in w.recs && (w.recs[id].aborted <==> w.recs[id].status.Canceled?)
            && (w.recs[id].status.Canceled? || w.recs[id].status.Running?)
  {
    ReachedInv(cfg, es);
  }

  // ---- deliveries ----

  /** An artifact being delivered is on disk exactly as long as its record is in the service's map. */
  lemma DeliveredDirIff(cfg: Config, w: World, h: nat)
    requires Inv(cfg, w) && h < |w.handles| && !w.handles[h].cleaned
    ensures Unremoved(w.life, w.handles[h].dir) <==> w.handles[h].job in w.jobs
  {
    var x := w.handles[h];
    assert x.job in w.recs && w.recs[x.job].artifact == Some(x.dir);
  }

  lemma {:induction false} DrainKeepsHandles(cfg: Config, w: World, now: int)
    ensures var w' := DrainLoop(cfg, w, now);
            w'.handles == w.handles && w'.jobs == w.jobs
    decreases |w.queue|
  {
    if w.running < cfg.RunLimit() && |w.queue| > 0 {
      var w1 := w.(queue := w.queue[1..]);
      DrainKeepsHandles(cfg, if Startable(w1, w.queue[0]) then Start(cfg, w1, w.queue[0], now) else w1, now);
    }
  }

  predicate SweptBy(w: World, e: Event, id: JobId) {
    e.ESweep? && Sweepable(w, id, e.now, e.ttl)
  }

  /** Only a sweep takes a known record out of the map, and only a callback uses a handle up: its own. */
  lemma HandlesStep(cfg: Config, w: World, e: Event, h: nat)
    requires h < |w.handles| && w.handles[h].job in w.recs
    ensures var w' := Step(cfg, w, e);
            && h < |w'.handles| && w'.handles[h].job == w.handles[h].job && w'.handles[h].dir == w.handles[h].dir
            && (!w.handles[h].cleaned && !(e.EDeliver? && e.h == h) ==> !w'.handles[h].cleaned)
            && (w.handles[h].job in w'.jobs <==> w.handles[h].job in w.jobs && !SweptBy(w, e, w.handles[h].job))
  {
    if e.EDrain? && w.drain {
      DrainKeepsHandles(cfg, w.(drain := false), e.now);
    }
  }

  /** A job being delivered is neither queued nor running, so a sweep looks only at its age. */
  lemma DeliveredAge(cfg: Config, w: World, e: Event, h: nat)
    requires Inv(cfg, w) && h < |w.handles| && !w.handles[h].cleaned && w.handles[h].job in w.jobs
    ensures var x := w.handles[h];
            SweptBy(w, e, x.job) <==> e.ESweep? && e.now - w.recs[x.job].updatedAt >= e.ttl
  {
    var x := w.handles[h];
    assert x.job in w.recs && w.recs[x.job].artifact == Some(x.dir);
  }

  /**
   The one way to lose a file in mid-delivery: over every run, a turn other than the delivery's own
   end removes the directory being delivered exactly if it is a sweep and the job's record has not
   been updated for the time to live.
   */
  lemma DeliveryCutOffIff(cfg: Config, es: seq<Event>, e: Event, h: nat)
    requires h < |Reached(cfg, es).handles| && !Reached(cfg, es).handles[h].cleaned
    requires !(e.EDeliver? && e.h == h)
    ensures var w := Reached(cfg, es);
            var x := w.handles[h];
            && x.job in w.recs
            && (Unremoved(Step(cfg, w, e).life, x.dir) <==>
                  Unremoved(w.life, x.dir) && !(e.ESweep? && e.now - w.recs[x.job].updatedAt >= e.ttl))
  {
    var w := Reached(cfg, es);
    ReachedInv(cfg, es);
    StepKeeps(cfg, w, e);
    HandlesStep(cfg, w, e, h);
    DeliveredDirIff(cfg, w, h);
    DeliveredDirIff(cfg, Step(cfg, w, e), h);
    if w.handles[h].job in w.jobs { DeliveredAge(cfg, w, e, h); }
  }
}
