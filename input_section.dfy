/**
 * The input form (components/InputSection.tsx): mode tabs, the text
 * area, the fast-track switch, the submit guard and the rotating
 * loading message.
 */
module InputSection {
  import opened Wrappers
  import opened Types
  import opened JsText

  const LoadingSteps: seq<string> := [
    "Initializing Vibe Check...",
    "Scanning CVPR/NeurIPS Trends...",
    "Synthesizing Novel Methodology...",
    "Cross-referencing SOTA Papers...",
    "Calculating Success Probability...",
    "Finalizing Visual Roadmap..."
  ]

  /** The arguments `onAnalyze` is called with. */
  datatype AnalyzeCall = AnalyzeCall(input: string, mode: Mode, isFastTrack: bool)

  /**
   * `handleSubmit`: calls `onAnalyze` once, with the untrimmed input, when
   * the trimmed input is non-empty, and calls nothing otherwise.
   */
  function SubmitCall(input: string, mode: Mode, isFastTrack: bool): (r: Option<AnalyzeCall>)
    ensures r.Some? <==> !AllWhiteSpace(input)
    ensures r.Some? ==> r.value == AnalyzeCall(input, mode, isFastTrack)
  {
    TrimEmptyIff(input);
    if Trim(input) != [] then Some(AnalyzeCall(input, mode, isFastTrack)) else None
  }

  /** `disabled={!input.trim() || isLoading}` on the submit button. */
  function SubmitDisabled(input: string, isLoading: bool): (r: bool)
    ensures r <==> isLoading || AllWhiteSpace(input)
  {
    TrimEmptyIff(input);
    Trim(input) == [] || isLoading
  }

  predicate TextareaDisabled(isLoading: bool) {
    isLoading
  }

  predicate CheckboxDisabled(isLoading: bool) {
    isLoading
  }

  /**
   * The submit button is usable exactly when a submission would reach
   * `onAnalyze`: not loading and some visible character typed. While
   * loading, nothing on the form can be edited or submitted.
   */
  lemma SubmitGate(input: string, mode: Mode, isFastTrack: bool, isLoading: bool)
    ensures !SubmitDisabled(input, isLoading) <==> !isLoading && SubmitCall(input, mode, isFastTrack).Some?
    ensures isLoading ==> SubmitDisabled(input, isLoading) && TextareaDisabled(isLoading) && CheckboxDisabled(isLoading)
  {
  }

  // ---------------------------------------------------------------------
  // Loading message rotation

  function NextStep(step: nat): (r: nat)
    ensures r < |LoadingSteps|
  {
    (step + 1) % |LoadingSteps|
  }

  /** The step index after `k` ticks of the interval. */
  function StepAfter(k: nat): nat {
    if k == 0 then 0 else NextStep(StepAfter(k - 1))
  }

  /** After `k` ticks the message shown is number `k mod 6`. */
  lemma {:induction false} StepAfterTicks(k: nat)
    ensures StepAfter(k) == k % 6 && StepAfter(k) < |LoadingSteps|
  {
    if k > 0 {
      StepAfterTicks(k - 1);
      assert StepAfter(k) == ((k - 1) % 6 + 1) % 6;
    }
  }

  // ---------------------------------------------------------------------
  // Mode-dependent texts

  function Heading(mode: Mode): string {
    match mode
    case IdeaMode => "Enter a Research Topic"
    case AbstractMode => "Input Research Abstract"
  }

  function Description(mode: Mode): string {
    match mode
    case IdeaMode => "We will generate a novel abstract for you and then analyze its vibe."
    case AbstractMode => "Paste your existing abstract to check its trendiness and conference fit."
  }

  function Placeholder(mode: Mode): string {
    match mode
    case IdeaMode => "e.g., 'Generative Video for Robotics', 'Efficient LLM Inference'..."
    case AbstractMode => "Paste your research abstract here..."
  }

  /** The heading, the description and the placeholder each tell the two modes apart. */
  lemma ModeTextsDiffer()
    ensures Heading(IdeaMode) != Heading(AbstractMode)
    ensures Description(IdeaMode) != Description(AbstractMode)
    ensures Placeholder(IdeaMode) != Placeholder(AbstractMode)
  {
    assert |Heading(IdeaMode)| == 22;
    assert |Description(IdeaMode)| == 68;
    assert |Placeholder(AbstractMode)| == 36;
  }

  /** The submit button's caption when not loading. */
  const IdleCaption := "Analyze Vibe \U{1F50E}"

  /** The submit button's caption: the current loading message exactly while loading, the fixed label otherwise. */
  function ButtonCaption(isLoading: bool, loadingText: string): (c: string)
    ensures isLoading ==> c == loadingText
    ensures !isLoading ==> c == IdleCaption
  {
    if isLoading then loadingText else IdleCaption
  }

  /** The component's state cells, and the interval's step counter. */
  class InputForm {
    var mode: Mode
    var input: string
    var isFastTrack: bool
    var loadingText: string
    /** The `step` variable the interval callback closes over. */
    var step: nat
    /** Whether the interval is installed. */
    var ticking: bool
    /** Ticks since the interval was installed. */
    ghost var ticks: nat

    ghost predicate Valid()
      reads this
    {
      step < |LoadingSteps| && loadingText == LoadingSteps[step] && step == StepAfter(ticks)
    }

    constructor ()
      ensures Valid()
      ensures mode == IdeaMode && input == "" && !isFastTrack && loadingText == LoadingSteps[0]
      ensures !ticking
    {
      mode := IdeaMode;
      input := "";
      isFastTrack := false;
      loadingText := LoadingSteps[0];
      step := 0;
      ticking := false;
      ticks := 0;
    }

    /** A mode tab's `onClick`; the tabs stay clickable while loading. */
    method SelectMode(m: Mode)
      requires Valid()
      modifies this`mode
      ensures Valid() && mode == m
    {
      mode := m;
    }

    /** The text area's `onChange`, which cannot fire while it is disabled. */
    method EditInput(text: string, isLoading: bool)
      requires Valid() && !TextareaDisabled(isLoading)
      modifies this`input
      ensures Valid() && input == text
    {
      input := text;
    }

    /** The fast-track switch's `onChange`, which cannot fire while it is disabled. */
    method SetFastTrack(checked: bool, isLoading: bool)
      requires Valid() && !CheckboxDisabled(isLoading)
      modifies this`isFastTrack
      ensures Valid() && isFastTrack == checked
    {
      isFastTrack := checked;
    }

    /**
     * The effect run when `isLoading` changes: the previous interval is
     * cleared, and when loading starts the counter restarts at message 0
     * and a new interval is installed.
     */
    method LoadingChanged(isLoading: bool)
      requires Valid()
      modifies this`step, this`loadingText, this`ticking, this`ticks
      ensures Valid() && ticking == isLoading
      ensures isLoading ==> step == 0 && ticks == 0 && loadingText == LoadingSteps[0]
      ensures !isLoading ==> step == old(step) && loadingText == old(loadingText)
    {
      ticking := isLoading;
      if isLoading {
        step := 0;
        ticks := 0;
        loadingText := LoadingSteps[0];
      }
    }

    /** One firing of the interval callback. */
    method Tick()
      requires Valid() && ticking
      modifies this`step, this`loadingText, this`ticks
      ensures Valid() && ticks == old(ticks) + 1
      ensures step == (old(step) + 1) % 6 && step == ticks % 6
      ensures loadingText == LoadingSteps[step]
    {
      step := NextStep(step);
      ticks := ticks + 1;
      loadingText := LoadingSteps[step];
      StepAfterTicks(ticks);
    }

    /** `handleSubmit`: what, if anything, is passed to `onAnalyze`. */
    method HandleSubmit() returns (call: Option<AnalyzeCall>)
      ensures call == SubmitCall(input, mode, isFastTrack)
      ensures call.Some? <==> !AllWhiteSpace(input)
    {
      TrimEmptyIff(input);
      if Trim(input) != [] {
        call := Some(AnalyzeCall(input, mode, isFastTrack));
      } else {
        call := None;
      }
    }
  }
}
