/**
 The yt-dlp runner: a promise settled at most once by whichever of abort, error, close and
 the check of the output file decides first, and the object that implements it with handlers.
 */
module YoutubeDlRunner {
  import opened Common
  import T = StreamTails

  datatype Stat = StatThrew | StatSize(size: nat)

  /** What can happen to a started process, in any order; `Close(None)` is a death by signal. */
  datatype Event =
    | Stdout(chunk: string)
    | Stderr(chunk: string)
    | Abort
    | SpawnError
    | Close(code: Option<int>)
    | StatDone(stat: Stat)

  datatype Reason = Aborted | SpawnFailed | Exited(code: Option<int>, authRequired: bool) | OutputMissing
  datatype Outcome = Resolved | Rejected(reason: Reason, stdoutTail: string, stderrTail: string)

  const CLEAN: Option<int> := Some(0)

  datatype Run = Run(settled: Option<Outcome>, checks: nat, kills: nat, stdout: seq<string>, stderr: seq<string>)

  const STARTED := Run(None, 0, 0, [], [])

  function JoinLines(lines: seq<string>): string {
    if lines == [] then "" else if |lines| == 1 then lines[0] else lines[0] + "\n" + JoinLines(lines[1..])
  }

  /** The last twelve lines of everything a stream has sent. */
  function Tail(chunks: seq<string>): string {
    JoinLines(T.LastN(T.AllLines(chunks), T.DIAGNOSTIC_TAIL_LINES))
  }

  predicate IncludesAt(s: string, part: string, i: nat) {
    i + |part| <= |s| && s[i..i + |part|] == part
  }

  predicate Includes(s: string, part: string) {
    exists i: nat :: i <= |s| && IncludesAt(s, part, i)
  }

  predicate AuthRequired(stderrTail: string) {
    Includes(stderrTail, "Sign in to confirm you") || Includes(stderrTail, "LOGIN_REQUIRED")
  }

  function Reject(reason: Reason, stdout: seq<string>, stderr: seq<string>): Outcome {
    Rejected(reason, Tail(stdout), Tail(stderr))
  }

  function SettleOnce(r: Run, outcome: Outcome): Run {
    if r.settled.Some? then r else r.(settled := Some(outcome))
  }

  function Step(r: Run, e: Event): Run {
    match e
    case Stdout(chunk) => r.(stdout := r.stdout + [chunk])
    case Stderr(chunk) => r.(stderr := r.stderr + [chunk])
    case Abort =>
      if r.settled.Some? then r  // the listener is gone
      else SettleOnce(r.(kills := r.kills + 1), Reject(Aborted, r.stdout, r.stderr))
    case SpawnError => SettleOnce(r, Reject(SpawnFailed, r.stdout, r.stderr))
    case Close(code) =>
      if r.settled.Some? then r
      else if code != CLEAN then SettleOnce(r, Reject(Exited(code, AuthRequired(Tail(r.stderr))), r.stdout, r.stderr))
      else r.(checks := r.checks + 1)
    case StatDone(stat) =>
      if r.checks == 0 then r
      else
        SettleOnce(r.(checks := r.checks - 1),
               if stat.StatSize? && stat.size > 0 then Resolved else Reject(OutputMissing, r.stdout, r.stderr))
  }

  function After(es: seq<Event>): Run {
    if es == [] then STARTED else Step(After(es[..|es| - 1]), es[|es| - 1])
  }

  // ---- the same thing read off the history, without state ----

  /** Some clean close came before position `k`. */
  predicate ClosedBefore(es: seq<Event>, k: nat)
    requires k <= |es|
  {
    exists j :: 0 <= j < k && es[j] == Close(CLEAN)
  }

  /** Event `k` can settle the promise: an abort, an error, an unclean close, or the answer to a clean one. */
  predicate Decisive(es: seq<Event>, k: nat)
    requires k < |es|
  {
    match es[k]
    case Abort => true
    case SpawnError => true
    case Close(code) => code != CLEAN
    case StatDone(_) => ClosedBefore(es, k)
    case _ => false
  }

  predicate FirstDecisive(es: seq<Event>, k: nat)
    requires k < |es|
  {
    Decisive(es, k) && forall i: nat :: i < k ==> !Decisive(es, i)
  }

  function Chunks(es: seq<Event>, err: bool): seq<string> {
    if es == [] then []
    else
      Chunks(es[..|es| - 1], err)
      + match es[|es| - 1]
        case Stdout(chunk) => if err then [] else [chunk]
        case Stderr(chunk) => if err then [chunk] else []
        case _ => []
  }

  /** What event `k` would settle the promise with: the tails are those of the output up to then. */
  function OutcomeOf(es: seq<Event>, k: nat): Outcome
    requires k < |es|
  {
    var stdout, stderr := Chunks(es[..k], false), Chunks(es[..k], true);
    match es[k]
    case Abort => Reject(Aborted, stdout, stderr)
    case SpawnError => Reject(SpawnFailed, stdout, stderr)
    case Close(code) => Reject(Exited(code, AuthRequired(Tail(stderr))), stdout, stderr)
    case StatDone(StatSize(size)) => if size > 0 then Resolved else Reject(OutputMissing, stdout, stderr)
    case _ => Reject(OutputMissing, stdout, stderr)
  }

  /** The state of a run is what its history says. */
  ghost predicate Matches(es: seq<Event>, r: Run) {
    && r.stdout == Chunks(es, false) && r.stderr == Chunks(es, true)
    && (r.settled.None? ==> (forall k: nat :: k < |es| ==> !Decisive(es, k)) && r.kills == 0)
    && (r.settled.None? ==> (r.checks > 0 <==> ClosedBefore(es, |es|)))
    && (r.settled.Some? ==>
          exists k: nat :: k < |es| && FirstDecisive(es, k) && r.settled == Some(OutcomeOf(es, k))
                           && r.kills == if es[k].Abort? then 1 else 0)
  }

  lemma PrefixDecisive(es: seq<Event>, k: nat)
    requires k + 1 < |es|
    ensures Decisive(es[..|es| - 1], k) <==> Decisive(es, k)
    ensures OutcomeOf(es[..|es| - 1], k) == OutcomeOf(es, k)
  {
    var init := es[..|es| - 1];
    assert init[..k] == es[..k];
    if ClosedBefore(es, k) {
      var j :| 0 <= j < k && es[j] == Close(CLEAN);
      assert init[j] == Close(CLEAN);
    }
  }

  lemma ClosedMore(es: seq<Event>, e: Event)
    ensures ClosedBefore(es + [e], |es| + 1) <==> ClosedBefore(es, |es|) || e == Close(CLEAN)
    ensures ClosedBefore(es + [e], |es|) <==> ClosedBefore(es, |es|)
  {
    var more := es + [e];
    if ClosedBefore(es, |es|) {
      var j :| 0 <= j < |es| && es[j] == Close(CLEAN);
      assert more[j] == Close(CLEAN);
    }
    assert more[|es|] == e;
  }

  lemma StepMatches(es: seq<Event>, r: Run, e: Event)
    requires Matches(es, r)
    ensures Matches(es + [e], Step(r, e))
  {
    var more := es + [e];
    var n := |es|;
    assert more[..n] == es && more[n] == e;
    ClosedMore(es, e);
    forall k: nat | k < n ensures Decisive(more, k) <==> Decisive(es, k)
                          ensures OutcomeOf(more, k) == OutcomeOf(es, k) {
      PrefixDecisive(more, k);
    }
    if r.settled.Some? {
      var k: nat :| k < |es| && FirstDecisive(es, k) && r.settled == Some(OutcomeOf(es, k))
                    && r.kills == if es[k].Abort? then 1 else 0;
      assert FirstDecisive(more, k) && more[k] == es[k];
      assert Step(r, e).settled == r.settled && Step(r, e).kills == r.kills;
    } else {
      UnsettledStep(es, r, e);
    }
  }

  lemma UnsettledStep(es: seq<Event>, r: Run, e: Event)
    requires Matches(es, r) && r.settled.None?
    requires forall k: nat :: k < |es| ==> !Decisive(es + [e], k)
    ensures Matches(es + [e], Step(r, e))
  {
    var more := es + [e];
    var n := |es|;
    assert more[..n] == es && more[n] == e;
    ClosedMore(es, e);
    if Decisive(more, n) {
      assert FirstDecisive(more, n);
      assert Step(r, e).settled == Some(OutcomeOf(more, n));
    }
  }

  /** For every order of events, the promise is settled by the first decisive one, with its outcome, and by no other. */
  lemma {:induction false} RunMatchesHistory(es: seq<Event>)
    ensures Matches(es, After(es))
  {
    if es != [] {
      var init := es[..|es| - 1];
      RunMatchesHistory(init);
      StepMatches(init, After(init), es[|es| - 1]);
      assert init + [es[|es| - 1]] == es;
    }
  }

  /** The promise is settled exactly when something decisive has happened. */
  lemma SettledIff(es: seq<Event>)
    ensures After(es).settled.Some? <==> exists k: nat :: k < |es| && Decisive(es, k)
  {
    RunMatchesHistory(es);
  }

  /** After a clean close, the output file was found and was not empty. */
  predicate GoodOutput(es: seq<Event>, k: nat)
    requires k < |es|
  {
    es[k].StatDone? && es[k].stat.StatSize? && es[k].stat.size > 0 && ClosedBefore(es, k)
  }

  /** Success means a clean close, then a non-empty output, and no abort, error or unclean close before that. */
  lemma ResolvedIff(es: seq<Event>)
    ensures After(es).settled == Some(Resolved) <==>
            exists k: nat :: k < |es| && GoodOutput(es, k) && forall i: nat :: i < k ==> !Decisive(es, i)
  {
    RunMatchesHistory(es);
    var r := After(es);
    forall k: nat | k < |es|
      ensures OutcomeOf(es, k) == Resolved && Decisive(es, k) <==> GoodOutput(es, k)
    {
      ResolvedByOutput(es, k);
    }
    if k: nat :| k < |es| && GoodOutput(es, k) && forall i: nat :: i < k ==> !Decisive(es, i) {
      assert FirstDecisive(es, k);
      SettledByFirst(es, r, k);
    }
    if r.settled == Some(Resolved) {
      var k := SettlingEvent(es, r);
    }
  }

  lemma ResolvedByOutput(es: seq<Event>, k: nat)
    requires k < |es|
    ensures OutcomeOf(es, k) == Resolved && Decisive(es, k) <==> GoodOutput(es, k)
  {
  }

  lemma SettlingEvent(es: seq<Event>, r: Run) returns (k: nat)
    requires Matches(es, r) && r.settled.Some?
    ensures k < |es| && FirstDecisive(es, k) && r.settled == Some(OutcomeOf(es, k))
  {
    k :| k < |es| && FirstDecisive(es, k) && r.settled == Some(OutcomeOf(es, k));
  }

  lemma SettledByFirst(es: seq<Event>, r: Run, k: nat)
    requires Matches(es, r) && k < |es| && FirstDecisive(es, k)
    ensures r.settled == Some(OutcomeOf(es, k))
  {
    var j := SettlingEvent(es, r);
    assert !(j < k) && !(k < j);
  }

  /** Once settled, nothing that happens later changes the outcome or kills the process. */
  lemma {:induction false} SettledForGood(es: seq<Event>, more: seq<Event>)
    requires After(es).settled.Some?
    ensures After(es + more).settled == After(es).settled && After(es + more).kills == After(es).kills
  {
    if more == [] {
      assert es + more == es;
    } else {
      var n := |more| - 1;
      SettledForGood(es, more[..n]);
      assert (es + more)[..|es + more| - 1] == es + more[..n];
    }
  }

  /** The process is killed exactly when the abort decided, and then once. */
  lemma KilledIffAborted(es: seq<Event>)
    ensures After(es).kills == if After(es).settled.Some? && After(es).settled.value.Rejected?
                                  && After(es).settled.value.reason == Aborted then 1 else 0
  {
    RunMatchesHistory(es);
  }

  // ---- the outcomes, spelled out ----

  /** Containing a text is being of the form before, text, after. */
  lemma IncludesIff(s: string, part: string)
    ensures Includes(s, part) <==> exists a: string, b: string :: s == a + part + b
  {
    if i: nat :| i <= |s| && IncludesAt(s, part, i) {
      assert s == s[..i] + part + s[i + |part|..];
    }
    if a: string, b: string :| s == a + part + b {
      assert IncludesAt(s, part, |a|);
    }
  }

  /** Lines are joined by single line feeds, in order. */
  lemma {:induction false} JoinOneMore(lines: seq<string>, line: string)
    ensures JoinLines([]) == ""
    ensures JoinLines(lines + [line]) == if lines == [] then line else JoinLines(lines) + "\n" + line
  {
    if |lines| > 1 {
      JoinOneMore(lines[1..], line);
      assert (lines + [line])[1..] == lines[1..] + [line];
      assert (lines[0] + "\n" + JoinLines(lines[1..])) + "\n" + line == lines[0] + "\n" + (JoinLines(lines[1..]) + "\n" + line);
    } else if |lines| == 1 {
      assert (lines + [line])[1..] == [line];
    }
  }

  ghost predicate Mentions(s: string, part: string) {
    exists a: string, b: string :: s == a + part + b
  }

  /** The last twelve lines a stream had sent before event `k`. */
  function TailBefore(es: seq<Event>, k: nat, err: bool): string
    requires k < |es|
  {
    JoinLines(T.LastN(T.AllLines(Chunks(es[..k], err)), 12))
  }

  /**
   What each first decisive event does: an abort, a start error, an unclean exit, whose reason is missing
   authentication exactly if the error tail says so, or the answer about the output.
   */
  lemma OutcomeIs(es: seq<Event>, k: nat)
    requires k < |es| && FirstDecisive(es, k)
    ensures var out, err := TailBefore(es, k, false), TailBefore(es, k, true);
            var settled := After(es).settled;
            && (es[k].Abort? ==> settled == Some(Rejected(Aborted, out, err)))
            && (es[k].SpawnError? ==> settled == Some(Rejected(SpawnFailed, out, err)))
            && (es[k].Close? ==>
                  settled == Some(Rejected(Exited(es[k].code,
                                                  Mentions(err, "Sign in to confirm you") || Mentions(err, "LOGIN_REQUIRED")),
                                           out, err)))
            && (es[k].StatDone? ==>
                  settled == Some(if es[k].stat.StatSize? && es[k].stat.size > 0 then Resolved
                                  else Rejected(OutputMissing, out, err)))
  {
    RunMatchesHistory(es);
    SettledByFirst(es, After(es), k);
    var err := TailBefore(es, k, true);
    IncludesIff(err, "Sign in to confirm you");
    IncludesIff(err, "LOGIN_REQUIRED");
  }

  // ---- the object with its handlers ----

  class YoutubeDlRun {
    var settled: Option<Outcome>
    var checks: nat
    var kills: nat
    var abortListening: bool
    const stdout: T.StreamTail
    const stderr: T.StreamTail

    ghost predicate Valid()
      reads this, stdout, stderr
    {
      stdout != stderr && stdout.Valid() && stderr.Valid() && (abortListening <==> settled.None?)
    }

    ghost function View(): Run
      reads this, stdout, stderr
    {
      Run(settled, checks, kills, stdout.seen, stderr.seen)
    }

    /** The executor after `execute` returned a process. */
    constructor ()
      ensures Valid() && View() == STARTED && fresh(stdout) && fresh(stderr)
    {
      settled, checks, kills, abortListening := None, 0, 0, true;
      stdout := new T.StreamTail();
      stderr := new T.StreamTail();
    }

    method Settle(outcome: Outcome)
      requires Valid()
      modifies this
      ensures Valid() && View() == SettleOnce(old(View()), outcome)
    {
      if settled.Some? {
        return;
      }
      settled := Some(outcome);
      abortListening := false;
    }

    function Rejection(reason: Reason): (r: Outcome)
      requires Valid()
      reads this, stdout, stderr
      ensures r == Reject(reason, stdout.seen, stderr.seen)
    {
      Rejected(reason, JoinLines(stdout.lines), JoinLines(stderr.lines))
    }

    method AbortDownload()
      requires Valid() && abortListening
      modifies this
      ensures Valid() && View() == Step(old(View()), Abort)
    {
      kills := kills + 1;
      Settle(Rejection(Aborted));
    }

    method SettleAfterClose(code: Option<int>)
      requires Valid()
      modifies this
      ensures Valid() && View() == Step(old(View()), Close(code))
    {
      if settled.Some? {
        return;
      }
      if code != CLEAN {
        Settle(Rejection(Exited(code, AuthRequired(JoinLines(stderr.lines)))));
        return;
      }
      checks := checks + 1;
    }

    /** The continuation after `await stat(outputPath)`. */
    method OutputChecked(stat: Stat)
      requires Valid() && checks > 0
      modifies this
      ensures Valid() && View() == Step(old(View()), StatDone(stat))
    {
      checks := checks - 1;
      if stat.StatSize? && stat.size > 0 {
        Settle(Resolved);
      } else {
        Settle(Rejection(OutputMissing));
      }
    }

    /** Delivers one event to its handler; an abort reaches the run only while its listener is attached. */
    method Handle(e: Event)
      requires Valid()
      modifies this, stdout, stderr
      ensures Valid() && View() == Step(old(View()), e)
    {
      match e
      case Stdout(chunk) => stdout.OnData(chunk);
      case Stderr(chunk) => stderr.OnData(chunk);
      case Abort => if abortListening { AbortDownload(); }
      case SpawnError => Settle(Rejection(SpawnFailed));
      case Close(code) => SettleAfterClose(code);
      case StatDone(stat) => if checks > 0 { OutputChecked(stat); }
    }
  }

  /**
   `runYoutubeDl` against everything that happens to its process: an already aborted signal and a
   failing `execute` reject at once, otherwise the first decisive event settles it.
   */
  method RunYoutubeDl(alreadyAborted: bool, executeThrows: bool, es: seq<Event>) returns (outcome: Option<Outcome>)
    ensures alreadyAborted ==> outcome == Some(Rejected(Aborted, "", ""))
    ensures !alreadyAborted && executeThrows ==> outcome == Some(Rejected(SpawnFailed, "", ""))
    ensures !alreadyAborted && !executeThrows ==>
              (outcome.None? <==> forall k: nat :: k < |es| ==> !Decisive(es, k))
    ensures !alreadyAborted && !executeThrows ==>
              forall k: nat :: k < |es| && FirstDecisive(es, k) ==> outcome == Some(OutcomeOf(es, k))
  {
    if alreadyAborted {
      return Some(Rejected(Aborted, "", ""));
    }
    if executeThrows {
      return Some(Rejected(SpawnFailed, "", ""));
    }
    var run := new YoutubeDlRun();
    var i := 0;
    while i < |es|
      invariant 0 <= i <= |es| && fresh(run) && fresh(run.stdout) && fresh(run.stderr)
      invariant run.Valid() && run.View() == After(es[..i])
    {
      run.Handle(es[i]);
      assert es[..i + 1][..i] == es[..i];
      i := i + 1;
    }
    assert es[..|es|] == es;
    RunMatchesHistory(es);
    outcome := run.settled;
  }
}
