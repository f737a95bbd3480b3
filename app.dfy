/**
 * The top-level component (App.tsx): which screen is showing, the last
 * submitted input, and the analysis cell, driven by the analyse and
 * reset handlers.
 */
module App {
  import opened Wrappers
  import opened Types

  datatype View = InputView | ResultView

  const FailureMessage := "Analysis failed. Please try again."

  /**
   * The handlers split at their `await`: `handleAnalyze` runs
   * BeginAnalyze, and later one of the two completions; `handleReset`
   * (the Start Over and Try Again buttons and the header logo) is Reset.
   */
  datatype Event =
    | BeginAnalyze(input: string)
    | CompleteSuccess(result: AnalysisResult)
    | CompleteFailure
    | Reset

  /** The component's state cells, plus whether a request is outstanding. */
  datatype Snapshot = Snapshot(view: View, lastInput: string, analysis: AnalysisState, pending: bool)

  const Idle := AnalysisState(false, None, None)

  const Initial := Snapshot(InputView, "", Idle, false)

  /**
   * When an event can happen: an analysis starts only from the input view
   * (the form is rendered only there) with no request outstanding, and a
   * completion answers the outstanding request.
   */
  predicate Enabled(s: Snapshot, e: Event) {
    match e
    case BeginAnalyze(_) => s.view == InputView && !s.pending
    case CompleteSuccess(_) => s.pending
    case CompleteFailure => s.pending
    case Reset => true
  }

  /** The state after one event. */
  function Step(s: Snapshot, e: Event): Snapshot {
    match e
    case BeginAnalyze(input) =>
      s.(lastInput := input, analysis := s.analysis.(isLoading := true, error := None), pending := true)
    case CompleteSuccess(r) =>
      s.(view := ResultView, analysis := AnalysisState(false, None, Some(r)), pending := false)
    case CompleteFailure =>
      s.(analysis := AnalysisState(false, Some(FailureMessage), None), pending := false)
    case Reset =>
      s.(view := InputView, analysis := Idle)
  }

  /** Every event of `es` is enabled when it happens. */
  predicate Admissible(s: Snapshot, es: seq<Event>)
    decreases |es|
  {
    es == [] || (Enabled(s, es[0]) && Admissible(Step(s, es[0]), es[1..]))
  }

  function Run(s: Snapshot, es: seq<Event>): Snapshot
    decreases |es|
  {
    if es == [] then s else Run(Step(s, es[0]), es[1..])
  }

  /**
   * The consistency the screens rely on: the result view always has a
   * result and no error; the input view never holds a result; an error
   * is the fixed failure text and never comes with a result; and a
   * request is outstanding whenever the spinner shows, and only in the
   * input view.
   */
  predicate Consistent(s: Snapshot) {
    && (s.view == ResultView ==> s.analysis.result.Some? && s.analysis.error.None?)
    && (s.view == InputView ==> s.analysis.result.None?)
    && (s.analysis.error.Some? ==> s.analysis.result.None? && s.analysis.error == Some(FailureMessage))
    && (s.pending ==> s.view == InputView)
    && (s.analysis.isLoading ==> s.pending)
  }

  lemma StepConsistent(s: Snapshot, e: Event)
    requires Consistent(s) && Enabled(s, e)
    ensures Consistent(Step(s, e))
  {
  }

  /** Every admissible sequence of events keeps the state consistent. */
  lemma {:induction false} RunConsistent(s: Snapshot, es: seq<Event>)
    requires Consistent(s) && Admissible(s, es)
    ensures Consistent(Run(s, es))
    decreases |es|
  {
    if es != [] {
      StepConsistent(s, es[0]);
      RunConsistent(Step(s, es[0]), es[1..]);
    }
  }

  /** From the initial state, whatever admissible events arrive, the state stays consistent. */
  lemma ReachableConsistent(es: seq<Event>)
    requires Admissible(Initial, es)
    ensures Consistent(Run(Initial, es))
  {
    RunConsistent(Initial, es);
  }

  /** Reset from any state: the input view, idle, no error, no result; the last input is kept. */
  lemma ResetClears(s: Snapshot)
    ensures Step(s, Reset).view == InputView && Step(s, Reset).analysis == Idle
    ensures Step(s, Reset).lastInput == s.lastInput
    ensures Step(Step(s, Reset), Reset) == Step(s, Reset)
  {
  }

  // ---------------------------------------------------------------------
  // What the page renders

  /** The intro text and the input form. */
  predicate ShowsInputSection(s: Snapshot) {
    s.view == InputView
  }

  /** The red banner under the form. */
  predicate ShowsErrorBanner(s: Snapshot) {
    s.view == InputView && s.analysis.error.Some?
  }

  /** The results panel, given the stored result and the last input. */
  predicate ShowsResults(s: Snapshot) {
    s.view == ResultView && s.analysis.result.Some?
  }

  /**
   * In a consistent state exactly one of the form and the results panel
   * is on screen, the results panel shows exactly in the result view, and
   * the error banner never shares the screen with results.
   */
  lemma ScreenSelection(s: Snapshot)
    requires Consistent(s)
    ensures ShowsResults(s) <==> s.view == ResultView
    ensures ShowsInputSection(s) <==> !ShowsResults(s)
    ensures ShowsErrorBanner(s) ==> !ShowsResults(s) && s.analysis.error == Some(FailureMessage)
  {
  }

  /** The component: its three state cells and the handlers that set them. */
  class AppComponent {
    var view: View
    var lastInput: string
    var analysis: AnalysisState
    ghost var pending: bool

    ghost function State(): Snapshot
      reads this
    {
      Snapshot(view, lastInput, analysis, pending)
    }

    ghost predicate Valid()
      reads this
    {
      Consistent(State())
    }

    constructor ()
      ensures State() == Initial && Valid()
      ensures view == InputView && lastInput == "" && analysis == AnalysisState(false, None, None)
    {
      view := InputView;
      lastInput := "";
      analysis := Idle;
      pending := false;
    }

    /** `handleAnalyze` up to its `await`: spinner on, error cleared, previous result kept. */
    method BeginAnalyze(input: string)
      requires Valid() && Enabled(State(), Event.BeginAnalyze(input))
      modifies this
      ensures Valid() && State() == Step(old(State()), Event.BeginAnalyze(input))
      ensures analysis.isLoading && analysis.error.None? && analysis.result == old(analysis.result)
      ensures lastInput == input && view == old(view) && pending
    {
      analysis := analysis.(isLoading := true, error := None);
      lastInput := input;
      pending := true;
    }

    /** The resolved `await`: store the result and switch to the result view. */
    method CompleteSuccess(r: AnalysisResult)
      requires Valid() && Enabled(State(), Event.CompleteSuccess(r))
      modifies this
      ensures Valid() && State() == Step(old(State()), Event.CompleteSuccess(r))
      ensures analysis == AnalysisState(false, None, Some(r)) && view == ResultView
      ensures lastInput == old(lastInput) && !pending
    {
      analysis := AnalysisState(false, None, Some(r));
      view := ResultView;
      pending := false;
    }

    /** The rejected `await`: fixed error text, no result, the view stays where it is. */
    method CompleteFailure()
      requires Valid() && Enabled(State(), Event.CompleteFailure)
      modifies this
      ensures Valid() && State() == Step(old(State()), Event.CompleteFailure)
      ensures analysis == AnalysisState(false, Some(FailureMessage), None)
      ensures view == old(view) && lastInput == old(lastInput) && !pending
    {
      analysis := AnalysisState(false, Some(FailureMessage), None);
      pending := false;
    }

    /** `handleReset`, from either view. */
    method Reset()
      requires Valid()
      modifies this
      ensures Valid() && State() == Step(old(State()), Event.Reset)
      ensures view == InputView && analysis == AnalysisState(false, None, None)
      ensures lastInput == old(lastInput) && pending == old(pending)
    {
      view := InputView;
      analysis := Idle;
    }
  }
}
