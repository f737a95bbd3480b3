/**
 * The records exchanged between the analysis service and the views
 * (types.ts). A field that the code treats as possibly absent, by a
 * `||` default, a `?.` access or a truthiness test, is an Option.
 */
module Types {
  import opened Wrappers

  /** One axis of the radar chart. */
  datatype RadarMetric = RadarMetric(metric: string, value: int)

  /** One phase of the implementation roadmap. */
  datatype RoadmapStep = RoadmapStep(phase: string, description: string, timeline: string)

  /** A paper recommended for a conference; `abstract` is a Dafny keyword, hence `abstractText`. */
  datatype Paper = Paper(
    title: string,
    year: int,
    oneLiner: string,
    abstractText: string,
    github: Option<string>)

  /** Diagram source for the external diagram renderer, and its caption. */
  datatype Methodology = Methodology(mermaidCode: string, description: string)

  datatype ConferenceRecommendation = ConferenceRecommendation(
    name: string,
    url: string,
    reason: string,
    relevantPapers: seq<Paper>)

  /** The object parsed from the model's reply. */
  datatype AnalysisResult = AnalysisResult(
    isValid: bool,
    validationFeedback: Option<string>,
    generatedAbstract: Option<string>,
    keywords: Option<seq<string>>,
    trendMatchScore: int,
    oneLiner: string,
    conferences: Option<seq<ConferenceRecommendation>>,
    metrics: Option<seq<RadarMetric>>,
    roadmap: Option<seq<RoadmapStep>>,
    methodology: Option<Methodology>)

  /** The App component's analysis cell: busy flag, error banner text, stored result. */
  datatype AnalysisState = AnalysisState(
    isLoading: bool,
    error: Option<string>,
    result: Option<AnalysisResult>)

  /** 'idea' (generate an abstract from a topic) or 'abstract' (evaluate a given abstract). */
  datatype Mode = IdeaMode | AbstractMode
}
