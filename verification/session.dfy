/**
  The `analyzed` session flag (app.py:34-35, 117-118, 122-123) and the results panel it
  guards (app.py:126-158). Each user interaction triggers one run of the script: an input
  widget's `on_change` callback (`reset_app`) runs first, then the flag is initialised if
  the session does not hold it yet, then a click on the button sets it. Results are
  produced only when the flag is true after that.
 */
module Session {
  import opened Recommendation

  /** What happened before a script run. */
  datatype Event =
    | InputChanged     // a slider or selector changed; its callback resets the flag
    | AnalyzeClicked   // the "Analyze Patient Risk" button was pressed
    | OtherRerun       // a run with neither (first load, or any other rerun)

  /** The flag as stored in the session: absent until it is first written. */
  datatype Stored = Absent | Present(analyzed: bool)

  /** One script run: callback, initialisation if absent, then the button. The flag is
      true afterwards exactly when the button was clicked, or nothing changed and it was
      already true. */
  function ScriptRun(stored: Stored, e: Event): (flag: bool)
    ensures e == InputChanged ==> !flag
    ensures e == AnalyzeClicked ==> flag
    ensures e == OtherRerun ==> (flag <==> stored == Present(true))
  {
    var afterCallback := if e == InputChanged then Present(false) else stored;
    var initialised := match afterCallback case Absent => false case Present(b) => b;
    if e == AnalyzeClicked then true else initialised
  }

  /** The stored flag after a sequence of script runs, starting from a fresh session:
      absent only before the first run, false right after an input change, true right
      after the button, and carried over by any other rerun (an absent flag becoming
      false). */
  function Run(events: seq<Event>): (s: Stored)
    ensures s == Absent <==> |events| == 0
    ensures |events| > 0 && events[|events| - 1] == InputChanged ==> s == Present(false)
    ensures |events| > 0 && events[|events| - 1] == AnalyzeClicked ==> s == Present(true)
    ensures |events| > 0 && events[|events| - 1] == OtherRerun ==>
              s == Present(Run(events[..|events| - 1]) == Present(true))
  {
    if |events| == 0 then Absent
    else Present(ScriptRun(Run(events[..|events| - 1]), events[|events| - 1]))
  }

  /** The guard of app.py:126: results are shown iff the stored flag is true. Nothing is
      shown in a fresh session or right after an input change; results are shown right
      after the button. */
  predicate ResultsShown(events: seq<Event>): (shown: bool)
    ensures |events| == 0 ==> !shown
    ensures |events| > 0 && events[|events| - 1] == InputChanged ==> !shown
    ensures |events| > 0 && events[|events| - 1] == AnalyzeClicked ==> shown
  {
    Run(events) == Present(true)
  }

  /** True iff the button was clicked at some run with no input change after it. */
  predicate AnalyzedSinceLastChange(events: seq<Event>) {
    exists i :: 0 <= i < |events| && events[i] == AnalyzeClicked
      && forall j :: i < j < |events| ==> events[j] != InputChanged
  }

  /** A fresh session shows nothing; after any input change nothing is shown; after the
      button results are shown. */
  lemma Transitions(events: seq<Event>)
    ensures !ResultsShown([])
    ensures !ResultsShown([OtherRerun])
    ensures !ResultsShown(events + [InputChanged])
    ensures ResultsShown(events + [AnalyzeClicked])
  {
    assert (events + [InputChanged])[..|events|] == events;
    assert (events + [AnalyzeClicked])[..|events|] == events;
  }

  /** Results are shown exactly when the button was clicked after the last input change. */
  lemma {:induction false} ShownIffAnalyzedSinceLastChange(events: seq<Event>)
    ensures ResultsShown(events) <==> AnalyzedSinceLastChange(events)
  {
    if |events| > 0 {
      var n := |events| - 1;
      var prefix := events[..n];
      ShownIffAnalyzedSinceLastChange(prefix);
      match events[n]
      case AnalyzeClicked =>
        assert events[n] == AnalyzeClicked;
      case InputChanged =>
        assert !AnalyzedSinceLastChange(events);
      case OtherRerun =>
        if AnalyzedSinceLastChange(events) {
          var i :| 0 <= i < |events| && events[i] == AnalyzeClicked
                   && forall j :: i < j < |events| ==> events[j] != InputChanged;
          assert prefix[i] == AnalyzeClicked;
        }
        if AnalyzedSinceLastChange(prefix) {
          var i :| 0 <= i < |prefix| && prefix[i] == AnalyzeClicked
                   && forall j :: i < j < |prefix| ==> prefix[j] != InputChanged;
          assert events[i] == AnalyzeClicked;
        }
    }
  }

  datatype Option<T> = None | Some(value: T)

  /** What the results panel shows: the risk colour and the recommended actions. */
  datatype Report = Report(colour: Colour, actions: Outcome)

  /** app.py:126-158: nothing unless the flag is true; otherwise the colour of app.py:132-134
      and the list `get_recommendation` returns for the predicted probability `p`, both
      taken from the same tier. */
  function Panel(analyzed: bool, p: real, inputs: map<string, int>): (r: Option<Report>)
    ensures r.Some? <==> analyzed
    ensures r.Some? ==> r.value.colour == DisplayColour(p)
    ensures r.Some? ==> r.value.actions == RecommendFor(p, inputs)
    ensures r.Some? && r.value.actions.Actions? ==>
              |r.value.actions.list| >= 1
              && InTier(r.value.actions.list[0], TierOf(p))
              && (r.value.colour == Red <==> r.value.actions.list[0] == SocialWorkerConsult)
              && (r.value.colour == Green <==> r.value.actions.list[0] == StandardDischarge)
  {
    if analyzed then Some(Report(DisplayColour(p), RecommendFor(p, inputs))) else None
  }

  /** After an input change no report is produced until the button is pressed again. */
  lemma NoReportAfterChange(events: seq<Event>, p: real, inputs: map<string, int>)
    ensures Panel(ResultsShown(events + [InputChanged]), p, inputs) == None
  {
    Transitions(events);
  }
}
