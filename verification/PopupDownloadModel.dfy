/**
 The popup model as the code has it: closure variable `snapshot` reassigned by every call,
 one method per stretch of code between awaits.
 */
module PopupDownload {
  import opened Common
  import P = PopupModel

  class PopupDownloadModel {
    const rules: P.Rules
    const defaults: P.Options
    var snapshot: P.Snapshot
    var flights: map<nat, P.Flight>
    var next: nat
    ghost var pressed: map<nat, P.Options>
    ghost var requested: seq<(nat, P.Options)>

    ghost function View(): P.Model
      reads this
    {
      P.Model(snapshot, flights, next, pressed, requested)
    }

    constructor (rules: P.Rules, defaults: P.Options)
      ensures this.rules == rules && this.defaults == defaults && View() == P.Begin(defaults)
    {
      this.rules, this.defaults := rules, defaults;
      snapshot := P.Snapshot(false, false, defaults, P.MissingSource);
      flights, next, pressed, requested := map[], 0, map[], [];
    }

    method Await(flight: P.Flight) returns (call: nat)
      modifies this`flights, this`next
      ensures View() == P.Launch(old(View()), flight) && call == old(next)
    {
      call := next;
      flights := flights[call := flight];
      next := next + 1;
    }

    method Return(call: nat)
      modifies this`flights
      ensures View() == P.Land(old(View()), call)
    {
      flights := map c | c in flights && c != call :: flights[c];
    }

    /** `initialize` after its `await loadOptions()`. */
    method FinishInitialize(loaded: Option<P.Options>)
      modifies this`snapshot
      ensures View() == P.OnLoaded(rules, defaults, old(View()), loaded)
    {
      var options := if loaded.Some? then loaded.value else defaults;
      options := options.(sourceUrl := "");
      snapshot := P.RenderReadyState(rules, snapshot.(options := options));
    }

    /** `importCurrentTabUrl` after its `await getCurrentTabUrl()`. */
    method FinishImport(url: Option<string>)
      modifies this`snapshot
      ensures View() == P.OnTabRead(rules, old(View()), url)
    {
      if url.Some? {
        var sourceUrl := rules.source(url.value);
        if sourceUrl.Some? {
          snapshot := P.RenderReadyState(rules, snapshot.(options := snapshot.options.(sourceUrl := sourceUrl.value)));
          return;
        }
      }
      var fallbackSnapshot := P.RenderReadyState(rules, snapshot);
      snapshot := fallbackSnapshot.(status := P.NoTabUrl);
    }

    method ReturnToForm()
      modifies this`snapshot
      ensures View() == P.Step(rules, defaults, old(View()), P.ReturnToForm)
    {
      snapshot := P.RenderReadyState(rules, snapshot.(downloading := false));
    }

    /** `submitDownload` up to its first await. */
    method SubmitDownload()
      modifies this
      ensures View() == P.Step(rules, defaults, old(View()), P.Submit)
    {
      var submittedSnapshot := snapshot;
      if submittedSnapshot.downloading || !submittedSnapshot.canDownload {
        return;
      }
      snapshot := submittedSnapshot.(canDownload := false, downloading := true, status := P.CheckingServer);
      pressed := pressed[next := submittedSnapshot.options];
      var call := Await(P.CheckingApi(submittedSnapshot.options));
    }

    /** Its end, after `startDownload` or in the `catch`. */
    method FinishSubmit(status: P.Status)
      modifies this`snapshot
      ensures View() == P.EndSubmit(rules, old(View()), status)
    {
      var readySnapshot := P.RenderReadyState(rules, snapshot.(downloading := false));
      snapshot := readySnapshot.(status := status);
    }

    method ServerChecked(call: nat, available: bool)
      requires call in flights && flights[call].CheckingApi?
      modifies this
      ensures View() == P.OnServerChecked(rules, old(View()), call, old(flights[call].submitted), available)
    {
      var submitted := flights[call].submitted;
      if available {
        flights := flights[call := P.StartingDownload(submitted)];
        requested := requested + [(call, submitted)];
      } else {
        Return(call);
        FinishSubmit(P.SubmitFailed);
      }
    }

    /** `updateOption` up to its await. */
    method UpdateOption(edit: P.Edit)
      modifies this
      ensures View() == P.Step(rules, defaults, old(View()), P.Update(edit))
    {
      var options := P.WithOption(snapshot.options, edit);
      snapshot := P.RenderReadyState(rules, snapshot.(options := options));
      if edit.SourceUrl? {
        return;
      }
      var call := Await(P.Saving);
    }

    /** Resumes the call waiting under this number, if the answer is of its kind. */
    method Resume(e: P.Event)
      requires e.Loaded? || e.TabRead? || e.ServerChecked? || e.DownloadStarted? || e.Saved?
      modifies this
      ensures View() == P.Step(rules, defaults, old(View()), e)
    {
      if e.call !in flights {
        return;
      }
      var flight := flights[e.call];
      if e.ServerChecked? && flight.CheckingApi? {
        ServerChecked(e.call, e.available);
      } else if e.DownloadStarted? && flight.StartingDownload? {
        Return(e.call);
        FinishSubmit(if e.accepted then P.Started else P.SubmitFailed);
      } else if e.Loaded? && flight.Loading? {
        Return(e.call);
        FinishInitialize(e.options);
      } else if e.TabRead? && flight.ReadingTab? {
        Return(e.call);
        FinishImport(e.url);
      } else if e.Saved? && flight.Saving? {
        Return(e.call);
        if !e.ok {
          snapshot := snapshot.(status := P.SaveFailed);
        }
      }
    }

    /** One event of any kind reaches the model. */
    method Handle(e: P.Event)
      modifies this
      ensures View() == P.Step(rules, defaults, old(View()), e)
    {
      match e
      case Initialize => var call := Await(P.Loading);
      case ImportTab => var call := Await(P.ReadingTab);
      case ReturnToForm => ReturnToForm();
      case Submit => SubmitDownload();
      case Update(edit) => UpdateOption(edit);
      case _ => Resume(e);
    }
  }

  /** A whole run of a popup: in the object, the button is enabled exactly for valid URLs while nothing downloads. */
  method RunPopup(rules: P.Rules, defaults: P.Options, events: seq<P.Event>) returns (model: PopupDownloadModel)
    requires rules.blank(defaults.sourceUrl)
    ensures fresh(model) && model.rules == rules
    ensures model.View() == P.After(rules, defaults, P.Begin(defaults), events)
    ensures model.snapshot.canDownload <==> P.ValidUrls(rules, model.snapshot.options) && !model.snapshot.downloading
  {
    model := new PopupDownloadModel(rules, defaults);
    var i := 0;
    assert events[..0] == [];
    while i < |events|
      invariant 0 <= i <= |events|
      invariant fresh(model) && model.rules == rules && model.defaults == defaults
      invariant model.View() == P.At(rules, defaults, events, i)
    {
      model.Handle(events[i]);
      P.AtNext(rules, defaults, events, i);
      i := i + 1;
    }
    assert events[..i] == events;
    P.CanDownloadIff(rules, defaults, events);
  }
}
