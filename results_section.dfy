/**
 * The results view (components/ResultsSection.tsx): the invalid-input
 * layout, the score badge, the conference tabs and the expandable paper
 * entries with their outbound links.
 */
module ResultsSection {
  import opened Wrappers
  import opened Types
  import opened JsText
  import opened UriComponent
  import Gemini

  const FallbackFeedback :=
    "The input provided doesn't appear to be a valid research topic or abstract. Please try again with more specific technical details."

  /** `result.validationFeedback || fallback`: an absent or empty feedback falls back to the fixed sentence. */
  function FeedbackText(feedback: Option<string>): (t: string)
    ensures feedback.Some? && feedback.value != "" ==> t == feedback.value
    ensures feedback.None? || feedback.value == "" ==> t == FallbackFeedback
    ensures t != ""
  {
    if feedback.Some? && feedback.value != "" then feedback.value else FallbackFeedback
  }

  // ---------------------------------------------------------------------
  // Score badge

  datatype Badge = Hot | Balanced | Cold

  /** 🔥 above 80, ⚖️ above 50, ❄️ otherwise. */
  function ScoreBadge(score: int): (b: Badge)
    ensures b == Hot <==> score > 80
    ensures b == Balanced <==> 50 < score <= 80
    ensures b == Cold <==> score <= 50
  {
    if score > 80 then Hot else if score > 50 then Balanced else Cold
  }

  function BadgeEmoji(b: Badge): string {
    match b
    case Hot => "\U{1F525}"
    case Balanced => "\U{2696}\U{FE0F}"
    case Cold => "\U{2744}\U{FE0F}"
  }

  function BadgeRank(b: Badge): nat {
    match b
    case Cold => 0
    case Balanced => 1
    case Hot => 2
  }

  /** A higher score never shows a cooler badge. */
  lemma BadgeMonotone(s: int, t: int)
    requires s <= t
    ensures BadgeRank(ScoreBadge(s)) <= BadgeRank(ScoreBadge(t))
  {
  }

  /** `{result.trendMatchScore}%`: the score's decimal text, then a percent sign. */
  function ScoreText(score: int): (r: string)
    ensures |r| >= 2 && r[|r| - 1] == '%'
    ensures r[..|r| - 1] == IntText(score)
  {
    var digits := IntText(score);
    var r := digits + "%";
    assert r[..|r| - 1] == digits;
    r
  }

  // ---------------------------------------------------------------------
  // Layout

  /** What the valid layout shows, panel by panel. */
  datatype ResultPanels = ResultPanels(
    echoedInput: string,
    generatedAbstract: Option<string>,
    keywords: seq<string>,
    oneLiner: string,
    badge: Badge,
    scoreText: string,
    methodology: Option<Methodology>,
    conferenceTabs: seq<string>,
    radar: Option<seq<RadarMetric>>,
    roadmap: seq<RoadmapStep>)

  /**
   * The invalid layout holds only the feedback and the echoed input (its
   * one button, Try Again, is the App's reset); the valid layout holds
   * the content panels.
   */
  datatype Layout =
    | InvalidLayout(feedback: string, echoedInput: string)
    | ValidLayout(panels: ResultPanels)

  /** The names on the conference tabs, in order. */
  function TabNames(cs: seq<ConferenceRecommendation>): (r: seq<string>)
    ensures |r| == |cs| && forall i :: 0 <= i < |cs| ==> r[i] == cs[i].name
  {
    if cs == [] then [] else [cs[0].name] + TabNames(cs[1..])
  }

  function Render(result: AnalysisResult, userInput: string): (l: Layout)
    ensures l.InvalidLayout? <==> !result.isValid
    ensures !result.isValid ==> l.feedback == FeedbackText(result.validationFeedback) && l.echoedInput == userInput
    ensures result.isValid ==> l.panels.echoedInput == userInput && l.panels.oneLiner == result.oneLiner
    ensures result.isValid ==>
      (l.panels.generatedAbstract.Some? <==> result.generatedAbstract.Some? && result.generatedAbstract.value != "")
    ensures result.isValid ==> l.panels.generatedAbstract.Some? ==> l.panels.generatedAbstract == result.generatedAbstract
    ensures result.isValid ==> l.panels.methodology == result.methodology && l.panels.radar == result.metrics
    ensures result.isValid ==> l.panels.badge == ScoreBadge(result.trendMatchScore)
    ensures result.isValid ==> l.panels.scoreText == ScoreText(result.trendMatchScore)
    ensures result.isValid ==> l.panels.conferenceTabs == TabNames(result.conferences.GetOr([]))
    ensures result.isValid ==> l.panels.keywords == result.keywords.GetOr([]) && l.panels.roadmap == result.roadmap.GetOr([])
  {
    if !result.isValid then
      InvalidLayout(FeedbackText(result.validationFeedback), userInput)
    else
      ValidLayout(ResultPanels(
        userInput,
        if result.generatedAbstract.Some? && result.generatedAbstract.value != "" then result.generatedAbstract else None,
        result.keywords.GetOr([]),
        result.oneLiner,
        ScoreBadge(result.trendMatchScore),
        ScoreText(result.trendMatchScore),
        result.methodology,
        TabNames(result.conferences.GetOr([])),
        result.metrics,
        result.roadmap.GetOr([])))
  }

  /** A valid reply, once normalised, always shows the methodology panel and the radar chart. */
  lemma NormalisedShowsPanels(p: AnalysisResult, userInput: string)
    requires p.isValid
    ensures Render(Gemini.Normalised(p), userInput).ValidLayout?
    ensures Render(Gemini.Normalised(p), userInput).panels.methodology.Some?
    ensures Render(Gemini.Normalised(p), userInput).panels.radar.Some?
  {
  }

  // ---------------------------------------------------------------------
  // Conference tabs

  /** The indices of the conference panels that are displayed: those equal to `activeTab`. */
  function VisiblePanels(count: nat, activeTab: int): (r: seq<nat>)
    ensures |r| <= 1
    ensures forall i :: 0 <= i < |r| ==> r[i] == activeTab && r[i] < count
    ensures |r| == 1 <==> 0 <= activeTab < count
  {
    if count == 0 then []
    else VisiblePanels(count - 1, activeTab) + (if activeTab == count - 1 then [count - 1] else [])
  }

  const ShowPromptCaption := "Show Prompt Used \U{2139}\U{FE0F}"
  const HidePromptCaption := "Hide System Prompt \U{2139}\U{FE0F}"

  /** The prompt toggle's caption names what a click will do: hide the block while it shows, show it otherwise. */
  function PromptButtonCaption(showPrompt: bool): (c: string)
    ensures c == HidePromptCaption <==> showPrompt
    ensures c == ShowPromptCaption <==> !showPrompt
  {
    if showPrompt then HidePromptCaption else ShowPromptCaption
  }

  /** The component's own state cells. */
  class ResultsView {
    var activeTab: int
    var showPrompt: bool

    constructor ()
      ensures activeTab == 0 && !showPrompt
    {
      activeTab := 0;
      showPrompt := false;
    }

    /** A tab's `onClick`. */
    method SelectTab(idx: nat)
      modifies this`activeTab
      ensures activeTab == idx
    {
      activeTab := idx;
    }

    /** The Show Prompt Used / Hide System Prompt button. */
    method TogglePrompt()
      modifies this`showPrompt
      ensures showPrompt == !old(showPrompt)
    {
      showPrompt := !showPrompt;
    }
  }

  // ---------------------------------------------------------------------
  // Paper entries

  const ScholarPrefix := "https://scholar.google.com/scholar?q="

  /** The Google Scholar search link: the prefix, then the title percent-encoded, which decodes back to the title. */
  function ScholarLink(title: string): (url: string)
    ensures url == ScholarPrefix + EncodeUriComponent(title)
    ensures |url| >= |ScholarPrefix| && url[..|ScholarPrefix|] == ScholarPrefix
    ensures DecodeUriComponent(url[|ScholarPrefix|..]) == Some(title)
    ensures UriSafe(url[|ScholarPrefix|..])
  {
    var q := EncodeUriComponent(title);
    UriRoundTrip(title);
    EncodedIsSafe(title);
    AppendParts(ScholarPrefix, q);
    ScholarPrefix + q
  }

  /** The code link: offered only for a non-empty `github`, and then `https://` followed by it verbatim. */
  function GithubLink(github: Option<string>): (r: Option<string>)
    ensures r.Some? <==> github.Some? && github.value != ""
    ensures r.Some? ==> |r.value| == 8 + |github.value| && r.value[..8] == "https://" && r.value[8..] == github.value
  {
    if github.Some? && github.value != "" then Some("https://" + github.value) else None
  }

  /** What the opened entry shows below its header. */
  datatype PaperDetails = PaperDetails(
    keyInsight: string,
    abstractText: string,
    scholarLink: string,
    githubLink: Option<string>)

  /** The title line, the collapsed one-line preview, and the opened details. */
  datatype PaperView = PaperView(
    title: string,
    year: int,
    preview: Option<string>,
    details: Option<PaperDetails>)

  /** A paper entry: collapsed it shows only the one-liner; opened, the one-liner, the abstract and the links. */
  function RenderPaper(p: Paper, isOpen: bool): (v: PaperView)
    ensures v.title == p.title && v.year == p.year
    ensures !isOpen ==> v.preview == Some(p.oneLiner) && v.details.None?
    ensures isOpen ==> v.preview.None? && v.details.Some?
    ensures isOpen ==> v.details.value.keyInsight == p.oneLiner && v.details.value.abstractText == p.abstractText
    ensures isOpen ==> v.details.value.scholarLink == ScholarLink(p.title)
    ensures isOpen ==> v.details.value.githubLink == GithubLink(p.github)
  {
    if isOpen then
      PaperView(p.title, p.year, None,
        Some(PaperDetails(p.oneLiner, p.abstractText, ScholarLink(p.title), GithubLink(p.github))))
    else
      PaperView(p.title, p.year, Some(p.oneLiner), None)
  }

  /** `PaperAccordionItem`'s open flag. */
  class PaperAccordionItem {
    var isOpen: bool

    constructor ()
      ensures !isOpen
    {
      isOpen := false;
    }

    /** The header button's `onClick`. */
    method Toggle()
      modifies this
      ensures isOpen == !old(isOpen)
    {
      isOpen := !isOpen;
    }
  }
}
