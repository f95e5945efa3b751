/**
 The extension popup's model: one snapshot, reassigned by asynchronous calls that interleave
 at their awaits. Every call captures what it needs and later spreads the snapshot of that time.
 */
module PopupModel {
  import opened Common

  datatype DownloadMode = Audio | Video

  datatype Options = Options(
    apiBaseUrl: string,
    bitrate: string,
    filename: string,
    mode: DownloadMode,
    resolution: string,
    sourceUrl: string)

  datatype Status =
    | MissingSource | InvalidSource | Ready | CheckingServer | Started | SubmitFailed | NoTabUrl | SaveFailed

  datatype Snapshot = Snapshot(canDownload: bool, downloading: bool, options: Options, status: Status)

  /** The URL rules: what `trim` leaves, which API base is accepted, and what a source URL becomes. */
  datatype Rules = Rules(blank: string -> bool, apiOk: string -> bool, source: string -> Option<string>)

  predicate ValidUrls(rules: Rules, options: Options) {
    !rules.blank(options.sourceUrl) && rules.apiOk(options.apiBaseUrl) && rules.source(options.sourceUrl).Some?
  }

  /** The status and the button follow from the options and the `downloading` flag alone. */
  function RenderReadyState(rules: Rules, base: Snapshot): Snapshot {
    if rules.blank(base.options.sourceUrl) then base.(canDownload := false, status := MissingSource)
    else if ValidUrls(rules, base.options) then base.(canDownload := !base.downloading, status := Ready)
    else base.(canDownload := false, status := InvalidSource)
  }

  /** A call waiting at an await. A submit keeps the snapshot's options of the moment it was pressed. */
  datatype Flight =
    | Loading
    | ReadingTab
    | CheckingApi(submitted: Options)
    | StartingDownload(submitted: Options)
    | Saving

  /** `pressed` records the options shown at each submit that went ahead, `requested` every download started. */
  datatype Model = Model(
    snapshot: Snapshot,
    flights: map<nat, Flight>,
    next: nat,
    pressed: map<nat, Options>,
    requested: seq<(nat, Options)>)

  /** A form change: the option's key with a value of its type. */
  datatype Edit =
    | ApiBaseUrl(value: string)
    | Bitrate(value: string)
    | Filename(value: string)
    | Mode(mode: DownloadMode)
    | Resolution(value: string)
    | SourceUrl(value: string)

  datatype Event =
    | Initialize
    | Loaded(call: nat, options: Option<Options>)      // None: the storage failed
    | ImportTab
    | TabRead(call: nat, url: Option<string>)
    | ReturnToForm
    | Submit
    | ServerChecked(call: nat, available: bool)
    | DownloadStarted(call: nat, accepted: bool)
    | Update(edit: Edit)
    | Saved(call: nat, ok: bool)

  function Begin(defaults: Options): Model {
    Model(Snapshot(false, false, defaults, MissingSource), map[], 0, map[], [])
  }

  function Launch(m: Model, flight: Flight): Model {
    m.(flights := m.flights[m.next := flight], next := m.next + 1)
  }

  function Land(m: Model, call: nat): Model {
    m.(flights := map c | c in m.flights && c != call :: m.flights[c])
  }

  function WithOption(options: Options, edit: Edit): Options {
    match edit
    case ApiBaseUrl(value) => options.(apiBaseUrl := value)
    case Bitrate(value) => options.(bitrate := value)
    case Filename(value) => options.(filename := value)
    case Mode(mode) => options.(mode := mode)
    case Resolution(value) => options.(resolution := value)
    case SourceUrl(value) => options.(sourceUrl := value)
  }

  function Show(m: Model, snapshot: Snapshot): Model {
    m.(snapshot := snapshot)
  }

  function OnLoaded(rules: Rules, defaults: Options, m: Model, loaded: Option<Options>): Model {
    var options := (if loaded.Some? then loaded.value else defaults).(sourceUrl := "");
    Show(m, RenderReadyState(rules, m.snapshot.(options := options)))
  }

  function OnTabRead(rules: Rules, m: Model, url: Option<string>): Model {
    var source := if url.Some? then rules.source(url.value) else None;
    if source.Some? then
      Show(m, RenderReadyState(rules, m.snapshot.(options := m.snapshot.options.(sourceUrl := source.value))))
    else Show(m, RenderReadyState(rules, m.snapshot).(status := NoTabUrl))
  }

  function OnSubmit(m: Model): Model {
    if m.snapshot.downloading || !m.snapshot.canDownload then m
    else
      Launch(Show(m, m.snapshot.(canDownload := false, downloading := true, status := CheckingServer))
               .(pressed := m.pressed[m.next := m.snapshot.options]),
             CheckingApi(m.snapshot.options))
  }

  /** Either end of a submit: ready again, with the options of now, under the given status. */
  function EndSubmit(rules: Rules, m: Model, status: Status): Model {
    Show(m, RenderReadyState(rules, m.snapshot.(downloading := false)).(status := status))
  }

  function OnServerChecked(rules: Rules, m: Model, call: nat, submitted: Options, available: bool): Model {
    if available then
      m.(flights := m.flights[call := StartingDownload(submitted)], requested := m.requested + [(call, submitted)])
    else EndSubmit(rules, Land(m, call), SubmitFailed)
  }

  function OnUpdate(rules: Rules, m: Model, edit: Edit): Model {
    var shown := Show(m, RenderReadyState(rules, m.snapshot.(options := WithOption(m.snapshot.options, edit))));
    if edit.SourceUrl? then shown else Launch(shown, Saving)
  }

  function Step(rules: Rules, defaults: Options, m: Model, e: Event): Model {
    match e
    case Initialize => Launch(m, Loading)
    case ImportTab => Launch(m, ReadingTab)
    case ReturnToForm => Show(m, RenderReadyState(rules, m.snapshot.(downloading := false)))
    case Submit => OnSubmit(m)
    case Update(edit) => OnUpdate(rules, m, edit)
    case _ =>
      if e.call !in m.flights then m
      else
        match (e, m.flights[e.call])
        case (Loaded(c, options), Loading) => OnLoaded(rules, defaults, Land(m, c), options)
        case (TabRead(c, url), ReadingTab) => OnTabRead(rules, Land(m, c), url)
        case (ServerChecked(c, available), CheckingApi(submitted)) => OnServerChecked(rules, m, c, submitted, available)
        case (DownloadStarted(c, accepted), StartingDownload(_)) =>
          EndSubmit(rules, Land(m, c), if accepted then Started else SubmitFailed)
        case (Saved(c, ok), Saving) => if ok then Land(m, c) else Show(Land(m, c), m.snapshot.(status := SaveFailed))
        case _ => m
  }

  function After(rules: Rules, defaults: Options, m: Model, es: seq<Event>): Model
    decreases |es|
  {
    if es == [] then m else After(rules, defaults, Step(rules, defaults, m, es[0]), es[1..])
  }

  // ---- the button ----

  ghost predicate ButtonInv(rules: Rules, m: Model) {
    m.snapshot.canDownload <==> ValidUrls(rules, m.snapshot.options) && !m.snapshot.downloading
  }

  lemma ButtonStep(rules: Rules, defaults: Options, m: Model, e: Event)
    requires ButtonInv(rules, m)
    ensures ButtonInv(rules, Step(rules, defaults, m, e))
  {
  }

  lemma {:induction false} ButtonAfter(rules: Rules, defaults: Options, m: Model, es: seq<Event>)
    requires ButtonInv(rules, m)
    ensures ButtonInv(rules, After(rules, defaults, m, es))
    decreases |es|
  {
    if es != [] {
      ButtonStep(rules, defaults, m, es[0]);
      ButtonAfter(rules, defaults, Step(rules, defaults, m, es[0]), es[1..]);
    }
  }

  /** Under every interleaving the button is enabled exactly when the URLs are valid and nothing is downloading. */
  lemma CanDownloadIff(rules: Rules, defaults: Options, es: seq<Event>)
    requires rules.blank(defaults.sourceUrl)
    ensures var s := After(rules, defaults, Begin(defaults), es).snapshot;
            s.canDownload <==> ValidUrls(rules, s.options) && !s.downloading
  {
    ButtonAfter(rules, defaults, Begin(defaults), es);
  }

  // ---- frozen options ----

  predicate IsSubmit(f: Flight) {
    f.CheckingApi? || f.StartingDownload?
  }

  /** Every submit in flight, and every download requested, carries the valid options shown when it was pressed. */
  ghost predicate FrozenInv(rules: Rules, m: Model) {
    && (forall c :: c in m.flights || c in m.pressed ==> c < m.next)
    && (forall c :: c in m.pressed ==> ValidUrls(rules, m.pressed[c]))
    && (forall c :: c in m.flights && IsSubmit(m.flights[c]) ==> c in m.pressed && m.flights[c].submitted == m.pressed[c])
    && (forall k :: 0 <= k < |m.requested| ==> m.requested[k].0 in m.pressed && m.requested[k].1 == m.pressed[m.requested[k].0])
  }

  lemma PressedStays(rules: Rules, defaults: Options, m: Model, e: Event)
    requires FrozenInv(rules, m)
    ensures forall c :: c in m.pressed ==>
              c in Step(rules, defaults, m, e).pressed && Step(rules, defaults, m, e).pressed[c] == m.pressed[c]
  {
  }

  lemma FrozenStep(rules: Rules, defaults: Options, m: Model, e: Event)
    requires FrozenInv(rules, m) && ButtonInv(rules, m)
    ensures FrozenInv(rules, Step(rules, defaults, m, e))
  {
  }

  lemma {:induction false} FrozenAfter(rules: Rules, defaults: Options, m: Model, es: seq<Event>)
    requires FrozenInv(rules, m) && ButtonInv(rules, m)
    ensures FrozenInv(rules, After(rules, defaults, m, es))
    ensures forall c :: c in m.pressed ==>
              c in After(rules, defaults, m, es).pressed && After(rules, defaults, m, es).pressed[c] == m.pressed[c]
    decreases |es|
  {
    if es != [] {
      PressedStays(rules, defaults, m, es[0]);
      FrozenStep(rules, defaults, m, es[0]);
      ButtonStep(rules, defaults, m, es[0]);
      FrozenAfter(rules, defaults, Step(rules, defaults, m, es[0]), es[1..]);
    }
  }

  /**
   Whatever is edited, loaded or imported while a submit is in flight, the download it starts
   uses the options shown when the button was pressed, and those were valid.
   */
  lemma RequestsUsePressedOptions(rules: Rules, defaults: Options, before: seq<Event>, after: seq<Event>, k: nat)
    requires rules.blank(defaults.sourceUrl)
    requires var m := After(rules, defaults, Begin(defaults), before);
             var end := After(rules, defaults, OnSubmit(m), after);
             m.snapshot.canDownload && k < |end.requested| && end.requested[k].0 == m.next
    ensures var m := After(rules, defaults, Begin(defaults), before);
            After(rules, defaults, OnSubmit(m), after).requested[k].1 == m.snapshot.options
            && ValidUrls(rules, m.snapshot.options)
  {
    var m := After(rules, defaults, Begin(defaults), before);
    ButtonAfter(rules, defaults, Begin(defaults), before);
    FrozenAfter(rules, defaults, Begin(defaults), before);
    var pressed := Step(rules, defaults, m, Submit);
    ButtonStep(rules, defaults, m, Submit);
    FrozenStep(rules, defaults, m, Submit);
    assert pressed.pressed[m.next] == m.snapshot.options;
    FrozenAfter(rules, defaults, pressed, after);
  }

  // ---- at most one submit ----

  /** One submit is in flight exactly while the snapshot says so, and never two. */
  ghost predicate OneSubmit(m: Model) {
    && (forall c :: c in m.flights ==> c < m.next)
    && (forall c, d :: c in m.flights && d in m.flights && IsSubmit(m.flights[c]) && IsSubmit(m.flights[d]) ==> c == d)
    && (m.snapshot.downloading <==> exists c :: c in m.flights && IsSubmit(m.flights[c]))
  }

  /** `returnToForm` is never called while a submit is in flight. */
  predicate NoReturnMidFlight(rules: Rules, defaults: Options, m: Model, es: seq<Event>)
    decreases |es|
  {
    es == []
    || (!(es[0].ReturnToForm? && m.snapshot.downloading)
        && NoReturnMidFlight(rules, defaults, Step(rules, defaults, m, es[0]), es[1..]))
  }

  /** A step that neither starts nor ends a submit keeps the set of submits. */
  lemma SameSubmits(m: Model, m': Model)
    requires OneSubmit(m) && m'.snapshot.downloading == m.snapshot.downloading
    requires forall c :: c in m'.flights ==> c < m'.next
    requires forall c :: (c in m'.flights && IsSubmit(m'.flights[c])) <==> (c in m.flights && IsSubmit(m.flights[c]))
    ensures OneSubmit(m')
  {
    if m.snapshot.downloading {
      var c :| c in m.flights && IsSubmit(m.flights[c]);
      assert c in m'.flights;
    }
  }

  lemma SubmitStep(m: Model)
    requires OneSubmit(m)
    ensures OneSubmit(OnSubmit(m))
  {
    var m' := OnSubmit(m);
    if m' != m {
      assert m.next in m'.flights;
    }
  }

  lemma EndStep(rules: Rules, m: Model, call: nat, status: Status)
    requires OneSubmit(m) && call in m.flights && IsSubmit(m.flights[call])
    ensures OneSubmit(EndSubmit(rules, Land(m, call), status))
  {
  }

  lemma OneSubmitStep(rules: Rules, defaults: Options, m: Model, e: Event)
    requires OneSubmit(m) && !(e.ReturnToForm? && m.snapshot.downloading)
    ensures OneSubmit(Step(rules, defaults, m, e))
  {
    var m' := Step(rules, defaults, m, e);
    if e.Submit? {
      SubmitStep(m);
    } else if (e.DownloadStarted? || (e.ServerChecked? && !e.available))
              && e.call in m.flights && m'.snapshot.downloading != m.snapshot.downloading {
      EndStep(rules, m, e.call, m'.snapshot.status);
    } else if m' != m {
      OtherStep(rules, defaults, m, e);
    }
  }

  lemma OtherStep(rules: Rules, defaults: Options, m: Model, e: Event)
    requires OneSubmit(m) && !(e.ReturnToForm? && m.snapshot.downloading) && !e.Submit?
    requires Step(rules, defaults, m, e).snapshot.downloading == m.snapshot.downloading
    ensures OneSubmit(Step(rules, defaults, m, e))
  {
    SameSubmits(m, Step(rules, defaults, m, e));
  }

  lemma {:induction false} OneSubmitAfter(rules: Rules, defaults: Options, m: Model, es: seq<Event>)
    requires OneSubmit(m) && NoReturnMidFlight(rules, defaults, m, es)
    ensures OneSubmit(After(rules, defaults, m, es))
    decreases |es|
  {
    if es != [] {
      OneSubmitStep(rules, defaults, m, es[0]);
      OneSubmitAfter(rules, defaults, Step(rules, defaults, m, es[0]), es[1..]);
    }
  }

  /** If nobody returns to the form mid-flight, at most one submit is ever in flight. */
  lemma AtMostOneSubmit(rules: Rules, defaults: Options, es: seq<Event>)
    requires NoReturnMidFlight(rules, defaults, Begin(defaults), es)
    ensures OneSubmit(After(rules, defaults, Begin(defaults), es))
  {
    OneSubmitAfter(rules, defaults, Begin(defaults), es);
  }

  // ---- two submits at once, over whole runs ----

  predicate Running(m: Model, c: nat) {
    c in m.flights && IsSubmit(m.flights[c])
  }

  ghost predicate Overlap(m: Model) {
    exists c, d :: c != d && Running(m, c) && Running(m, d)
  }

  /** The submit gets past its guard. */
  predicate Accepted(m: Model, e: Event) {
    e.Submit? && m.snapshot.canDownload && !m.snapshot.downloading
  }

  /** The event ends the submit `d`. */
  predicate Ends(m: Model, e: Event, d: nat) {
    && Running(m, d)
    && match e
       case ServerChecked(call, available) => call == d && m.flights[d].CheckingApi? && !available
       case DownloadStarted(call, _) => call == d && m.flights[d].StartingDownload?
       case _ => false
  }

  /** The model after the first `n` events of a run. */
  function At(rules: Rules, defaults: Options, es: seq<Event>, n: nat): Model
    requires n <= |es|
  {
    After(rules, defaults, Begin(defaults), es[..n])
  }

  lemma {:induction false} AfterSnoc(rules: Rules, defaults: Options, m: Model, es: seq<Event>, e: Event)
    ensures After(rules, defaults, m, es + [e]) == Step(rules, defaults, After(rules, defaults, m, es), e)
    decreases |es|
  {
    if es == [] {
      assert (es + [e])[1..] == [];
    } else {
      assert (es + [e])[1..] == es[1..] + [e];
      AfterSnoc(rules, defaults, Step(rules, defaults, m, es[0]), es[1..], e);
    }
  }

  lemma AtNext(rules: Rules, defaults: Options, es: seq<Event>, n: nat)
    requires n < |es|
    ensures At(rules, defaults, es, n + 1) == Step(rules, defaults, At(rules, defaults, es, n), es[n])
  {
    assert es[..n + 1] == es[..n] + [es[n]];
    AfterSnoc(rules, defaults, Begin(defaults), es[..n], es[n]);
  }

  lemma CallsAreOlder(rules: Rules, defaults: Options, es: seq<Event>, n: nat)
    requires n <= |es| && rules.blank(defaults.sourceUrl)
    ensures ButtonInv(rules, At(rules, defaults, es, n)) && FrozenInv(rules, At(rules, defaults, es, n))
  {
    ButtonAfter(rules, defaults, Begin(defaults), es[..n]);
    FrozenAfter(rules, defaults, Begin(defaults), es[..n]);
  }

  /** How one event changes the submits in flight and the flag. */
  lemma SubmitsStep(rules: Rules, defaults: Options, m: Model, e: Event)
    requires FrozenInv(rules, m)
    ensures var m' := Step(rules, defaults, m, e);
            && (forall c :: Running(m', c) && !Running(m, c) ==> Accepted(m, e) && c == m.next)
            && (forall c :: Running(m, c) && !Running(m', c) ==> Ends(m, e, c))
            && (Accepted(m, e) ==> Running(m', m.next) && m.next !in m.flights && m'.snapshot.downloading)
            && (m.snapshot.downloading && !m'.snapshot.downloading ==>
                  e.ReturnToForm? || exists d :: Ends(m, e, d) && !Running(m', d))
  {
    if e.DownloadStarted? || e.ServerChecked? {
      assert Step(rules, defaults, m, e).snapshot.downloading != m.snapshot.downloading ==> Ends(m, e, e.call);
    }
  }

  /** What may clear the flag under a running submit `c`: a return to the form, or another submit's end. */
  ghost predicate ClearsUnder(m: Model, e: Event, c: nat) {
    Running(m, c) && (e.ReturnToForm? || exists d :: d != c && Ends(m, e, d))
  }

  /** While a submit runs and the flag is down, something has cleared it since that submit began. */
  lemma {:induction false} FlagWasCleared(rules: Rules, defaults: Options, es: seq<Event>, n: nat, c: nat) returns (i: nat)
    requires n <= |es| && rules.blank(defaults.sourceUrl)
    requires Running(At(rules, defaults, es, n), c) && !At(rules, defaults, es, n).snapshot.downloading
    ensures i < n && ClearsUnder(At(rules, defaults, es, i), es[i], c)
  {
    assert n > 0;
    i := n - 1;
    var m := At(rules, defaults, es, i);
    AtNext(rules, defaults, es, i);
    CallsAreOlder(rules, defaults, es, i);
    SubmitsStep(rules, defaults, m, es[i]);
    if !m.snapshot.downloading {
      i := FlagWasCleared(rules, defaults, es, i, c);
    }
  }

  /**
   Every submit that goes ahead over a running submit `c` was let through earlier: while `c` ran,
   somebody returned to the form, or another submit ended and cleared the flag `c` had set.
   */
  lemma OverlapHasCause(rules: Rules, defaults: Options, es: seq<Event>, k: nat, c: nat)
    requires k < |es| && rules.blank(defaults.sourceUrl)
    requires Accepted(At(rules, defaults, es, k), es[k]) && Running(At(rules, defaults, es, k), c)
    ensures exists i :: 0 <= i < k && ClearsUnder(At(rules, defaults, es, i), es[i], c)
  {
    var i := FlagWasCleared(rules, defaults, es, k, c);
  }

  /** A return to the form under the running submit `c`, later a press of the enabled button with `c` still running. */
  ghost predicate ReturnThenSubmit(rules: Rules, defaults: Options, es: seq<Event>, i: nat, k: nat, c: nat) {
    && i < k < |es|
    && es[i].ReturnToForm? && Running(At(rules, defaults, es, i), c)
    && es[k].Submit? && At(rules, defaults, es, k).snapshot.canDownload && Running(At(rules, defaults, es, k), c)
  }

  lemma ReturnThenSubmitOverlaps(rules: Rules, defaults: Options, es: seq<Event>, i: nat, k: nat, c: nat)
    requires rules.blank(defaults.sourceUrl) && ReturnThenSubmit(rules, defaults, es, i, k, c)
    ensures Overlap(At(rules, defaults, es, k + 1))
  {
    AtNext(rules, defaults, es, k);
    CallsAreOlder(rules, defaults, es, k);
    SubmitsStep(rules, defaults, At(rules, defaults, es, k), es[k]);
    assert Running(At(rules, defaults, es, k + 1), c);
  }

  /** The first state with two submits in flight comes from a press that an earlier return let through. */
  lemma {:induction false} FirstOverlap(rules: Rules, defaults: Options, es: seq<Event>, n: nat) returns (i: nat, k: nat, c: nat)
    requires n <= |es| && rules.blank(defaults.sourceUrl) && Overlap(At(rules, defaults, es, n))
    ensures ReturnThenSubmit(rules, defaults, es, i, k, c)
    decreases n
  {
    assert n > 0;
    k := n - 1;
    if j: nat :| j < n && Overlap(At(rules, defaults, es, j)) {
      i, k, c := FirstOverlap(rules, defaults, es, j);
    } else {
      AtNext(rules, defaults, es, k);
      CallsAreOlder(rules, defaults, es, k);
      SubmitsStep(rules, defaults, At(rules, defaults, es, k), es[k]);
      c :| Running(At(rules, defaults, es, k), c);
      i := FlagWasCleared(rules, defaults, es, k, c);
    }
  }

  /**
   Over every run, two submits are in flight at some point exactly when somebody returned to the
   form while a submit ran and the enabled button was pressed later, with that submit still running.
   */
  lemma OverlapIff(rules: Rules, defaults: Options, es: seq<Event>)
    requires rules.blank(defaults.sourceUrl)
    ensures (exists n :: 0 <= n <= |es| && Overlap(At(rules, defaults, es, n)))
            <==> (exists i: nat, k: nat, c: nat :: ReturnThenSubmit(rules, defaults, es, i, k, c))
  {
    if n :| 0 <= n <= |es| && Overlap(At(rules, defaults, es, n)) {
      var i, k, c := FirstOverlap(rules, defaults, es, n);
    }
    if i: nat, k: nat, c: nat :| ReturnThenSubmit(rules, defaults, es, i, k, c) {
      ReturnThenSubmitOverlaps(rules, defaults, es, i, k, c);
    }
  }

  /**
   The shortest such run, from any state with one submit in flight: after a return to the form the
   very next press starts a second submit exactly when the options shown at the return are valid.
   With other events in between, `OverlapIff` decides.
   */
  lemma ReturnMidFlightOverlapsIff(rules: Rules, defaults: Options, m: Model, c: nat)
    requires OneSubmit(m) && c in m.flights && IsSubmit(m.flights[c])
    ensures var m' := After(rules, defaults, m, [ReturnToForm, Submit]);
            && c in m'.flights && IsSubmit(m'.flights[c])
            && ((exists d :: d != c && d in m'.flights && IsSubmit(m'.flights[d])) <==> ValidUrls(rules, m.snapshot.options))
  {
    var es := [ReturnToForm, Submit];
    var m1 := Step(rules, defaults, m, ReturnToForm);
    var m2 := Step(rules, defaults, m1, Submit);
    assert es[1..] == [Submit] && es[1..][0] == Submit && es[1..][1..] == [];
    assert After(rules, defaults, m1, [Submit]) == After(rules, defaults, m2, []) == m2;
    assert After(rules, defaults, m, es) == m2;
    assert c < m.next;
    if ValidUrls(rules, m.snapshot.options) {
      assert m.next in m2.flights && IsSubmit(m2.flights[m.next]);
    }
  }

  /** Options edited to nothing at the return and made valid again after it: two submits are in flight. */
  lemma OverlapAfterEdit(rules: Rules, defaults: Options, url: string)
    requires rules.blank("") && !rules.blank(url) && rules.source(url).Some? && rules.apiOk(defaults.apiBaseUrl)
    requires defaults.sourceUrl == ""
    ensures var es := [Update(SourceUrl(url)), Submit, Update(SourceUrl("")), ReturnToForm, Update(SourceUrl(url)), Submit];
            Overlap(At(rules, defaults, es, 6)) && !ValidUrls(rules, At(rules, defaults, es, 3).snapshot.options)
  {
    var es := [Update(SourceUrl(url)), Submit, Update(SourceUrl("")), ReturnToForm, Update(SourceUrl(url)), Submit];
    AtNext(rules, defaults, es, 0);
    AtNext(rules, defaults, es, 1);
    AtNext(rules, defaults, es, 2);
    AtNext(rules, defaults, es, 3);
    AtNext(rules, defaults, es, 4);
    AtNext(rules, defaults, es, 5);
    assert Running(At(rules, defaults, es, 2), 0);
    assert Running(At(rules, defaults, es, 6), 0) && Running(At(rules, defaults, es, 6), 1);
  }

  /**
   After one overlap no further return is needed: when one of two submits ends, failed or started,
   the next press starts a third over the other exactly when the options shown by then are valid.
   */
  lemma EndUnderOtherOverlapsIff(rules: Rules, defaults: Options, m: Model, e: Event, c: nat, d: nat)
    requires FrozenInv(rules, m) && c != d && Ends(m, e, c) && Running(m, d)
    ensures var m' := After(rules, defaults, m, [e, Submit]);
            && !Running(m', c) && Running(m', d)
            && (Running(m', m.next) <==> ValidUrls(rules, m.snapshot.options))
  {
    var es := [e, Submit];
    assert es == [es[0]] + [es[1]];
    AfterSnoc(rules, defaults, m, [es[0]], es[1]);
    AfterSnoc(rules, defaults, m, [], es[0]);
    assert [] + [es[0]] == [es[0]];
  }

  /** The status shown after the end of a submit. */
  predicate EndStatus(e: Event, status: Status) {
    status == if e.DownloadStarted? && e.accepted then Started else SubmitFailed
  }

  /** Ending the only submit, in either way, gives the button back, on the options as they are by then. */
  lemma EndedSubmitRestoresButton(rules: Rules, defaults: Options, m: Model, e: Event, c: nat)
    requires OneSubmit(m) && Ends(m, e, c)
    ensures var m' := Step(rules, defaults, m, e);
            && m'.snapshot.options == m.snapshot.options && !m'.snapshot.downloading
            && (m'.snapshot.canDownload <==> ValidUrls(rules, m.snapshot.options))
            && EndStatus(e, m'.snapshot.status)
            && forall d :: d in m'.flights ==> !IsSubmit(m'.flights[d])
  {
  }

  // ---- what the user sees ----

  /** The form as it stands, outside a submit: the source is missing, or invalid, or everything is ready. */
  ghost predicate ShowsForm(rules: Rules, s: Snapshot) {
    && (s.status == MissingSource <==> rules.blank(s.options.sourceUrl))
    && (s.status == Ready <==>
          && !rules.blank(s.options.sourceUrl) && rules.apiOk(s.options.apiBaseUrl)
          && rules.source(s.options.sourceUrl).Some?)
    && (s.status in {MissingSource, Ready, InvalidSource})
  }

  /** `updateOption` sets its own field, leaves the other five, and saves unless the field is the source. */
  lemma UpdateShows(rules: Rules, defaults: Options, m: Model, edit: Edit)
    ensures var m' := Step(rules, defaults, m, Update(edit));
            var o, o' := m.snapshot.options, m'.snapshot.options;
            && o'.apiBaseUrl == (if edit.ApiBaseUrl? then edit.value else o.apiBaseUrl)
            && o'.bitrate == (if edit.Bitrate? then edit.value else o.bitrate)
            && o'.filename == (if edit.Filename? then edit.value else o.filename)
            && o'.mode == (if edit.Mode? then edit.mode else o.mode)
            && o'.resolution == (if edit.Resolution? then edit.value else o.resolution)
            && o'.sourceUrl == (if edit.SourceUrl? then edit.value else o.sourceUrl)
            && m'.snapshot.downloading == m.snapshot.downloading && ShowsForm(rules, m'.snapshot)
            && m'.flights == (if edit.SourceUrl? then m.flights else m.flights[m.next := Saving])
  {
  }

  /** A failed save is shown and changes nothing else; a save that worked changes nothing. */
  lemma SaveShows(rules: Rules, defaults: Options, m: Model, call: nat, ok: bool)
    requires call in m.flights && m.flights[call].Saving?
    ensures var m' := Step(rules, defaults, m, Saved(call, ok));
            && m'.snapshot == (if ok then m.snapshot else m.snapshot.(status := SaveFailed))
            && m'.flights == m.flights - {call} && m'.requested == m.requested
  {
    assert m.flights - {call} == Land(m, call).flights;
  }

  /** The popup opens empty; once loaded it shows the stored options, or the defaults, with no source. */
  lemma LoadShows(rules: Rules, defaults: Options, m: Model, call: nat, options: Option<Options>)
    requires call in m.flights && m.flights[call].Loading?
    ensures Begin(defaults).snapshot == Snapshot(false, false, defaults, MissingSource)
    ensures var m' := Step(rules, defaults, m, Loaded(call, options));
            var o, shown := (if options.Some? then options.value else defaults), m'.snapshot.options;
            && shown.sourceUrl == "" && shown.apiBaseUrl == o.apiBaseUrl && shown.bitrate == o.bitrate
            && shown.filename == o.filename && shown.mode == o.mode && shown.resolution == o.resolution
            && m'.snapshot.downloading == m.snapshot.downloading && ShowsForm(rules, m'.snapshot)
            && m'.flights == m.flights - {call}
  {
    assert m.flights - {call} == Land(m, call).flights;
  }

  /** The tab's URL becomes the source in its normal form; if it has none, the options stay and the status says so. */
  lemma TabShows(rules: Rules, defaults: Options, m: Model, call: nat, url: Option<string>)
    requires call in m.flights && m.flights[call].ReadingTab? && ButtonInv(rules, m)
    ensures var m' := Step(rules, defaults, m, TabRead(call, url));
            var found := url.Some? && rules.source(url.value).Some?;
            && (found ==>
                  && m'.snapshot.options == m.snapshot.options.(sourceUrl := rules.source(url.value).value)
                  && ShowsForm(rules, m'.snapshot))
            && (!found ==>
                  && m'.snapshot.options == m.snapshot.options && m'.snapshot.status == NoTabUrl
                  && m'.snapshot.canDownload == m.snapshot.canDownload)
            && m'.snapshot.downloading == m.snapshot.downloading
            && m'.flights == m.flights - {call}
  {
    assert m.flights - {call} == Land(m, call).flights;
  }

  /** A press that goes ahead says so at once; its options are checked, and started exactly if the server answers. */
  lemma SubmitShows(rules: Rules, defaults: Options, m: Model)
    requires Accepted(m, Submit)
    ensures var m' := Step(rules, defaults, m, Submit);
            && m'.snapshot == Snapshot(false, true, m.snapshot.options, CheckingServer)
            && m'.flights == m.flights[m.next := CheckingApi(m.snapshot.options)] && m'.requested == m.requested
  {
  }

  lemma CheckShows(rules: Rules, defaults: Options, m: Model, call: nat, available: bool)
    requires call in m.flights && m.flights[call].CheckingApi?
    ensures var m' := Step(rules, defaults, m, ServerChecked(call, available));
            var o := m.flights[call].submitted;
            && (available ==>
                  && m'.flights == m.flights[call := StartingDownload(o)] && m'.snapshot == m.snapshot
                  && m'.requested == m.requested + [(call, o)])
            && (!available ==>
                  && call !in m'.flights && m'.requested == m.requested && !m'.snapshot.downloading
                  && m'.snapshot.options == m.snapshot.options && m'.snapshot.status == SubmitFailed)
  {
  }

  /** Each call's answer is for that kind of call; anything else is ignored. */
  lemma StrayAnswersIgnored(rules: Rules, defaults: Options, m: Model, e: Event)
    requires e.Loaded? || e.TabRead? || e.ServerChecked? || e.DownloadStarted? || e.Saved?
    requires e.call in m.flights ==>
               && (e.Loaded? ==> !m.flights[e.call].Loading?) && (e.TabRead? ==> !m.flights[e.call].ReadingTab?)
               && (e.ServerChecked? ==> !m.flights[e.call].CheckingApi?)
               && (e.DownloadStarted? ==> !m.flights[e.call].StartingDownload?) && (e.Saved? ==> !m.flights[e.call].Saving?)
    ensures Step(rules, defaults, m, e) == m
  {
  }

  /** Opening the popup and importing a tab only start their calls; a return to the form shows it, out of any submit. */
  lemma RequestsShow(rules: Rules, defaults: Options, m: Model)
    ensures var m' := Step(rules, defaults, m, Initialize);
            m'.snapshot == m.snapshot && m'.flights == m.flights[m.next := Loading]
    ensures var m' := Step(rules, defaults, m, ImportTab);
            m'.snapshot == m.snapshot && m'.flights == m.flights[m.next := ReadingTab]
    ensures var m' := Step(rules, defaults, m, ReturnToForm);
            && m'.flights == m.flights && m'.snapshot.options == m.snapshot.options && !m'.snapshot.downloading
            && ShowsForm(rules, m'.snapshot)
  {
  }

  /** The enabled button, in the rules' own terms, over every run. */
  lemma ButtonRules(rules: Rules, defaults: Options, es: seq<Event>)
    requires rules.blank(defaults.sourceUrl)
    ensures var s := After(rules, defaults, Begin(defaults), es).snapshot;
            s.canDownload <==>
              && !s.downloading && !rules.blank(s.options.sourceUrl) && rules.apiOk(s.options.apiBaseUrl)
              && rules.source(s.options.sourceUrl).Some?
  {
    CanDownloadIff(rules, defaults, es);
  }
}
