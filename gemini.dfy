/**
 * The analysis service (services/gemini.ts): the prompt sent to the
 * language model, and what becomes of the model's reply.
 */
module Gemini {
  import opened Wrappers
  import opened Types
  import opened JsText

  const SimulatedDate := "December 2025"
  const ModelName := "gemini-2.5-flash"
  const ResponseMimeType := "application/json"
  const SystemInstruction :=
    "You are the 'Research Vibe Navigator,' a strict AI research evaluator. You provide professional, modern visualizations and cite REAL research papers."

  // ---------------------------------------------------------------------
  // The prompt, piece by piece as the template literals lay it out

  /** A line break followed by the template's six-space indent. */
  const Indent := "\n      "

  const TopicLabel := "User Input Topic: \""
  const AbstractLabel := "User Input Abstract: \""
  const Quote := "\""

  const IdeationMarker := "MODE: Ideation."
  const EvaluationMarker := "MODE: Evaluation."
  const IdeaStep1 :=
    "STEP 1: Validate input. If meaningful, generate a high-quality, novel SOTA-level research abstract based on this topic."
  const IdeaStep2 := "STEP 2: Analyze the generated abstract."
  const AbstractStep1 := "STEP 1: Validate input. If meaningful, analyze the provided abstract directly."

  const FastTrackLabel := "- Fast Track Mode: "
  const DateLabel := "- Current Simulated Date: "

  /** The task guidelines closing the suffix, through the template's final indent. */
  const Guidelines :=
    "\n      \n      Task Guidelines:\n"
    + "      1. VALIDATION (CRITICAL):\n"
    + "         - Check if the input is nonsense (e.g. \"1234\", \"asdf\"), profane, or completely unrelated to research/science.\n"
    + "         - If Invalid: Set \"isValid\" to false.\n"
    + "\n"
    + "      2. SCORING (STRICT & OBJECTIVE):\n"
    + "         - Trend Match Score & Radar Metrics must be OBJECTIVE. \n"
    + "         - 50% = Average. 85%+ = Exceptional.\n"
    + "\n"
    + "      3. Content Generation (Only if Valid):\n"
    + "         - Methodology Figure: \n"
    + "             - Create a HIGHLY DETAILED Mermaid.js 'graph TD'. \n"
    + "             - Use 'subgraph' to organize logical blocks (e.g., 'Encoder', 'Latent Space', 'Decoder'). \n"
    + "             - Define and Apply classes: \n"
    + "               classDef data fill:#e0f2f1,stroke:#00695c,stroke-width:2px;\n"
    + "               classDef process fill:#fff3e0,stroke:#e65100,stroke-width:2px;\n"
    + "               classDef model fill:#f3e5f5,stroke:#7b1fa2,stroke-width:2px;\n"
    + "             - Assign these classes to nodes to make it visually professional.\n"
    + "         - Conferences & Papers: \n"
    + "             - IF Fast Track: Deadlines in Jan/Feb 2026.\n"
    + "             - FIND REAL PAPERS: Provide 3 *existing* papers that actually exist in the real world. \n"
    + "             - Do NOT hallucinate GitHub links unless you are 100% certain.\n"
    + "\n"
    + "      Return the result in strict JSON format.\n"
    + "    "

  /** `${b}` for a boolean. */
  function BoolText(b: bool): string {
    if b then "true" else "false"
  }

  /** The pieces of the mode-specific opening; the input is piece 2, embedded verbatim. */
  function HeaderPieces(input: string, mode: Mode): seq<string> {
    match mode
    case IdeaMode =>
      [Indent, TopicLabel, input, Quote, Indent, IdeationMarker, " ", Indent, IdeaStep1, Indent, IdeaStep2, Indent]
    case AbstractMode =>
      [Indent, AbstractLabel, input, Quote, Indent, EvaluationMarker, Indent, AbstractStep1, Indent]
  }

  /** The pieces of the suffix both modes append: the configuration block and the task guidelines. */
  function SuffixPieces(isFastTrack: bool): seq<string> {
    [Indent, "CONFIG:", Indent, FastTrackLabel, BoolText(isFastTrack), Indent, DateLabel, SimulatedDate, Guidelines]
  }

  function PromptPieces(input: string, mode: Mode, isFastTrack: bool): seq<string> {
    HeaderPieces(input, mode) + SuffixPieces(isFastTrack)
  }

  /** The prompt `analyzeResearch` composes: the mode's header, then the shared suffix. */
  function BuildPrompt(input: string, mode: Mode, isFastTrack: bool): string {
    Concat(PromptPieces(input, mode, isFastTrack))
  }

  /** The prompt is the header followed by the same suffix in both modes. */
  lemma PromptIsHeaderThenSuffix(input: string, mode: Mode, isFastTrack: bool)
    ensures BuildPrompt(input, mode, isFastTrack)
      == Concat(HeaderPieces(input, mode)) + Concat(SuffixPieces(isFastTrack))
  {
    ConcatAppend(HeaderPieces(input, mode), SuffixPieces(isFastTrack));
  }

  /** Where the input starts inside the prompt. */
  function InputOffset(mode: Mode): nat {
    match mode
    case IdeaMode => |Indent| + |TopicLabel|
    case AbstractMode => |Indent| + |AbstractLabel|
  }

  /** The input sits in the prompt verbatim, unescaped, right after the mode's label. */
  lemma PromptEmbedsInput(input: string, mode: Mode, isFastTrack: bool)
    ensures InputOffset(mode) + |input| <= |BuildPrompt(input, mode, isFastTrack)|
    ensures BuildPrompt(input, mode, isFastTrack)[InputOffset(mode)..InputOffset(mode) + |input|] == input
  {
    var ps := PromptPieces(input, mode, isFastTrack);
    ConcatAround(ps, 2);
    var modeLabel := if mode == IdeaMode then TopicLabel else AbstractLabel;
    assert ps[..2] == [Indent, modeLabel];
    Concat2(Indent, modeLabel);
  }

  /** Prompts of the same mode and flag are equal only for equal inputs. */
  lemma PromptDeterminesInput(a: string, b: string, mode: Mode, isFastTrack: bool)
    requires BuildPrompt(a, mode, isFastTrack) == BuildPrompt(b, mode, isFastTrack)
    ensures a == b
  {
    var ps := PromptPieces(a, mode, isFastTrack);
    var qs := PromptPieces(b, mode, isFastTrack);
    assert ps[..2] == qs[..2] && ps[3..] == qs[3..];
    ConcatCancel(ps, qs, 2);
  }

  /** Idea mode: `User Input Topic: "<input>"`, the Ideation marker and a STEP 2. */
  lemma IdeaPromptContents(input: string, isFastTrack: bool)
    ensures Contains(BuildPrompt(input, IdeaMode, isFastTrack), TopicLabel + input + Quote)
    ensures Contains(BuildPrompt(input, IdeaMode, isFastTrack), IdeationMarker)
    ensures Contains(BuildPrompt(input, IdeaMode, isFastTrack), IdeaStep2)
  {
    var ps := PromptPieces(input, IdeaMode, isFastTrack);
    ConcatInfix(ps, 1, 4);
    assert ps[1..4] == [TopicLabel, input, Quote];
    Concat3(TopicLabel, input, Quote);
    PieceOccurs(ps, 5);
    PieceOccurs(ps, 10);
  }

  /** Abstract mode: `User Input Abstract: "<input>"` and the Evaluation marker. */
  lemma AbstractPromptContents(input: string, isFastTrack: bool)
    ensures Contains(BuildPrompt(input, AbstractMode, isFastTrack), AbstractLabel + input + Quote)
    ensures Contains(BuildPrompt(input, AbstractMode, isFastTrack), EvaluationMarker)
  {
    var ps := PromptPieces(input, AbstractMode, isFastTrack);
    ConcatInfix(ps, 1, 4);
    assert ps[1..4] == [AbstractLabel, input, Quote];
    Concat3(AbstractLabel, input, Quote);
    PieceOccurs(ps, 5);
  }

  /** Both modes carry the fast-track flag and the simulated date in their shared suffix. */
  lemma PromptConfig(input: string, mode: Mode, isFastTrack: bool)
    ensures Contains(BuildPrompt(input, mode, isFastTrack), FastTrackLabel + BoolText(isFastTrack))
    ensures Contains(BuildPrompt(input, mode, isFastTrack), DateLabel + SimulatedDate)
  {
    var ps := PromptPieces(input, mode, isFastTrack);
    var h := |HeaderPieces(input, mode)|;
    ConcatInfix(ps, h + 3, h + 5);
    assert ps[h + 3..h + 5] == [FastTrackLabel, BoolText(isFastTrack)];
    Concat2(FastTrackLabel, BoolText(isFastTrack));
    ConcatInfix(ps, h + 6, h + 8);
    assert ps[h + 6..h + 8] == [DateLabel, SimulatedDate];
    Concat2(DateLabel, SimulatedDate);
  }

  lemma PieceOccurs(ps: seq<string>, k: nat)
    requires k < |ps|
    ensures Contains(Concat(ps), ps[k])
  {
    ConcatInfix(ps, k, k + 1);
    assert ps[k..k + 1] == [ps[k]];
    assert [ps[k]][1..] == [];
    assert Concat([ps[k]]) == ps[k] + [] == ps[k];
  }

  lemma Concat2(a: string, b: string)
    ensures Concat([a, b]) == a + b
  {
    assert [a, b][1..] == [b];
    assert [b][1..] == [];
    assert Concat([b]) == b + [] == b;
  }

  /** Two prompts that differ only in the fast-track flag are different strings. */
  lemma FastTrackChangesPrompt(input: string, mode: Mode)
    ensures BuildPrompt(input, mode, true) != BuildPrompt(input, mode, false)
  {
    var ps := PromptPieces(input, mode, true);
    var qs := PromptPieces(input, mode, false);
    var k := |HeaderPieces(input, mode)| + 4;
    assert ps[..k] == qs[..k];
    assert ps[k] == "true" && qs[k] == "false";
    ConcatDiffer(ps, qs, k, 0);
  }

  /** Whatever the inputs and flags, an idea-mode prompt is never an abstract-mode prompt. */
  lemma ModeChangesPrompt(a: string, b: string, f: bool, g: bool)
    ensures BuildPrompt(a, IdeaMode, f) != BuildPrompt(b, AbstractMode, g)
  {
    var ps := PromptPieces(a, IdeaMode, f);
    var qs := PromptPieces(b, AbstractMode, g);
    assert ps[..1] == qs[..1];
    assert ps[1][11] == 'T' && qs[1][11] == 'A';
    ConcatDiffer(ps, qs, 1, 11);
  }

  // ---------------------------------------------------------------------
  // The request and the reply

  /** What `generateContent` is handed. */
  datatype GenerateRequest = GenerateRequest(
    model: string,
    contents: string,
    responseMimeType: string,
    systemInstruction: string)

  function BuildRequest(input: string, mode: Mode, isFastTrack: bool): (r: GenerateRequest)
    ensures r.contents == BuildPrompt(input, mode, isFastTrack)
    ensures r.model == ModelName && r.responseMimeType == ResponseMimeType && r.systemInstruction == SystemInstruction
  {
    GenerateRequest(ModelName, BuildPrompt(input, mode, isFastTrack), ResponseMimeType, SystemInstruction)
  }

  /** What the model call gives back: a rejected promise, or a response whose text may be missing. */
  datatype ModelReply = Rejected | Replied(text: Option<string>)

  /** What `analyzeResearch` settles with: a resolved result or a thrown error. */
  datatype Outcome = Success(result: AnalysisResult) | Failure

  /** `x || []` for a list field: a present list, even an empty one, is kept. */
  function OrEmpty<T>(o: Option<seq<T>>): (r: Option<seq<T>>)
    ensures r.Some?
    ensures o.Some? ==> r == o
    ensures o.None? ==> r == Some([])
  {
    if o.Some? then o else Some([])
  }

  const EmptyMethodology := Methodology("", "")

  /**
   * The defaulting applied to a parsed reply. A valid result gets every
   * absent list and an absent methodology filled in and nothing else
   * touched; an invalid one is returned exactly as parsed.
   */
  function Normalised(p: AnalysisResult): (r: AnalysisResult)
    ensures !p.isValid ==> r == p
    ensures p.isValid ==> r.keywords.Some? && r.conferences.Some? && r.metrics.Some? && r.roadmap.Some?
    ensures p.isValid ==> r.methodology == Some(p.methodology.GetOr(EmptyMethodology))
    ensures p.isValid && p.keywords.None? ==> r.keywords == Some([])
    ensures p.isValid && p.conferences.None? ==> r.conferences == Some([])
    ensures p.isValid && p.metrics.None? ==> r.metrics == Some([])
    ensures p.isValid && p.roadmap.None? ==> r.roadmap == Some([])
    ensures p.keywords.Some? ==> r.keywords == p.keywords
    ensures p.conferences.Some? ==> r.conferences == p.conferences
    ensures p.metrics.Some? ==> r.metrics == p.metrics
    ensures p.roadmap.Some? ==> r.roadmap == p.roadmap
    ensures p.methodology.Some? ==> r.methodology == p.methodology
    ensures r.isValid == p.isValid && r.trendMatchScore == p.trendMatchScore && r.oneLiner == p.oneLiner
    ensures r.validationFeedback == p.validationFeedback && r.generatedAbstract == p.generatedAbstract
  {
    if p.isValid then
      p.(keywords := OrEmpty(p.keywords),
         conferences := OrEmpty(p.conferences),
         metrics := OrEmpty(p.metrics),
         roadmap := OrEmpty(p.roadmap),
         methodology := Some(p.methodology.GetOr(EmptyMethodology)))
    else p
  }

  /** Normalising a normalised result changes nothing. */
  lemma NormalisedIdempotent(p: AnalysisResult)
    ensures Normalised(Normalised(p)) == Normalised(p)
  {
  }

  /** A result has no absent list or methodology left for the views to trip over. */
  predicate Complete(r: AnalysisResult) {
    r.keywords.Some? && r.conferences.Some? && r.metrics.Some? && r.roadmap.Some? && r.methodology.Some?
  }

  /** Normalisation makes a valid result complete, and leaves complete results as they are. */
  lemma NormalisedComplete(p: AnalysisResult)
    ensures p.isValid ==> Complete(Normalised(p))
    ensures Complete(p) ==> Normalised(p) == p
  {
  }

  /**
   * How the reply settles: a rejected call, a missing or empty text, or
   * text that does not parse all throw; otherwise the parsed object,
   * normalised, is the result.
   */
  function ReplyOutcome(reply: ModelReply, parse: string -> Option<AnalysisResult>): (o: Outcome)
    ensures o.Failure? <==>
      (reply.Rejected? || reply.text.None? || reply.text.value == "" || parse(reply.text.value).None?)
    ensures o.Success? ==> o.result == Normalised(parse(reply.text.value).value)
  {
    match reply
    case Rejected => Failure
    case Replied(text) =>
      if text.None? || text.value == "" then Failure
      else
        match parse(text.value)
        case None => Failure
        case Some(parsed) => Success(Normalised(parsed))
  }

  /** A result is delivered only from a non-empty text that parsed. */
  lemma SuccessNeedsParsedText(reply: ModelReply, parse: string -> Option<AnalysisResult>)
    requires ReplyOutcome(reply, parse).Success?
    ensures reply.Replied? && reply.text.Some? && reply.text.value != ""
    ensures parse(reply.text.value).Some?
    ensures ReplyOutcome(reply, parse).result.isValid == parse(reply.text.value).value.isValid
  {
  }

  /** The parsed reply as the mutable object `JSON.parse` returns. */
  class ParsedObject {
    var isValid: bool
    var validationFeedback: Option<string>
    var generatedAbstract: Option<string>
    var keywords: Option<seq<string>>
    var trendMatchScore: int
    var oneLiner: string
    var conferences: Option<seq<ConferenceRecommendation>>
    var metrics: Option<seq<RadarMetric>>
    var roadmap: Option<seq<RoadmapStep>>
    var methodology: Option<Methodology>

    /** The object's fields as a value. */
    function Value(): AnalysisResult
      reads this
    {
      AnalysisResult(isValid, validationFeedback, generatedAbstract, keywords, trendMatchScore,
        oneLiner, conferences, metrics, roadmap, methodology)
    }

    constructor (v: AnalysisResult)
      ensures Value() == v
    {
      isValid := v.isValid;
      validationFeedback := v.validationFeedback;
      generatedAbstract := v.generatedAbstract;
      keywords := v.keywords;
      trendMatchScore := v.trendMatchScore;
      oneLiner := v.oneLiner;
      conferences := v.conferences;
      metrics := v.metrics;
      roadmap := v.roadmap;
      methodology := v.methodology;
    }

    /** The `if (parsed.isValid) { ... }` block: assigns the defaults field by field. */
    method Normalise()
      modifies this
      ensures Value() == Normalised(old(Value()))
      ensures isValid == old(isValid) && trendMatchScore == old(trendMatchScore) && oneLiner == old(oneLiner)
      ensures validationFeedback == old(validationFeedback) && generatedAbstract == old(generatedAbstract)
    {
      if isValid {
        keywords := if keywords.Some? then keywords else Some([]);
        conferences := if conferences.Some? then conferences else Some([]);
        metrics := if metrics.Some? then metrics else Some([]);
        roadmap := if roadmap.Some? then roadmap else Some([]);
        methodology := if methodology.Some? then methodology else Some(EmptyMethodology);
      }
    }
  }

  /**
   * `analyzeResearch(input, mode, isFastTrack)`: builds the request, hands it
   * to the model (`callModel`), parses the reply text (`parse`, standing
   * for `JSON.parse`; no schema check happens locally) and normalises the
   * parsed object in place.
   */
  method AnalyzeResearch(
    input: string, mode: Mode, isFastTrack: bool,
    callModel: GenerateRequest -> ModelReply,
    parse: string -> Option<AnalysisResult>)
    returns (outcome: Outcome)
    ensures outcome == ReplyOutcome(callModel(BuildRequest(input, mode, isFastTrack)), parse)
  {
    var request := BuildRequest(input, mode, isFastTrack);
    var reply := callModel(request);
    if reply.Rejected? {
      return Failure;
    }
    if reply.text.None? || reply.text.value == "" {
      return Failure;  // "No response text generated"
    }
    var parsed := parse(reply.text.value);
    if parsed.None? {
      return Failure;  // JSON.parse threw
    }
    var obj := new ParsedObject(parsed.value);
    obj.Normalise();
    outcome := Success(obj.Value());
  }
}
