# Research Vibe Navigator — a verified model of its core

Research Vibe Navigator is a single-page web app. The user types a research topic (idea mode) or pastes an abstract (abstract mode). The app sends one prompt to a language model, which returns a JSON analysis: whether the input is meaningful, a trend score, keywords, conferences with papers, radar metrics, a roadmap and a methodology diagram. The app then shows either a "needs revision" screen or the result panels.

This project models the part of the app that has logic of its own:

- **`Gemini`** (services/gemini.ts): how the prompt is composed from `(input, mode, isFastTrack)`, and the request handed to the model. It also models how the reply settles. A rejected call, a missing or empty text, or unparsable text is a failure. A parsed object whose `isValid` is true gets its missing lists and missing methodology filled in place. Any other parsed object is returned exactly as parsed. The in-place defaulting is the class `ParsedObject`, specified by the pure function `Normalised`.
- **`App`** (App.tsx): the `view` / `lastInput` / `analysis` state cells as the class `AppComponent`. It has one method per event: the start of `handleAnalyze`, each of its two completions, and `handleReset`. Beside the class are a pure transition function `Step` and an invariant `Consistent` that every admissible sequence of events preserves. The module also gives the conditions that choose what the page shows.
- **`InputSection`** (components/InputSection.tsx): the form state as the class `InputForm`. It covers the submit guard, the disabled conditions and the six-message loading rotation. The rotation's step counter is proved to be `k mod 6` after `k` ticks.
- **`ResultsSection`** (components/ResultsSection.tsx): the choice between the invalid and the valid layout, and the score badge thresholds. It also covers the score text, the conference tabs, the prompt toggle, the paper accordion, and the Scholar and GitHub links.
- **`Types`** are the records of types.ts. **`JsText`** models the ECMAScript string operations the code uses: template-literal joining, `String.prototype.trim` with the ECMAScript white-space set, and the decimal text of an integer. **`UriComponent`** models `encodeURIComponent` (section 19.2.6.5 of ECMA-262). Its inverse, `decodeURIComponent`, is a reference definition: the model proves that the Scholar link's query decodes back to the paper title.

Foreign effects are parameters of the model:

- The model call is `callModel: GenerateRequest -> ModelReply`.
- `JSON.parse` followed by the `as AnalysisResult` cast is `parse: string -> Option<AnalysisResult>`.
- `None` stands for "throws": the text is not JSON, or it is `null`, whose `isValid` cannot be read. `Some` is always a well-typed `AnalysisResult`; the replies that the cast lets through without being one are listed under "## Left out".

Two facts about the code are easy to miss:

- The code does not check the reply against the response schema; it only casts (services/gemini.ts:175).
- After a failed analysis the view is left as it was (App.tsx:24-30); the failure does not switch it back to the input view.

## Model

| member | source | states |
|---|---|---|
| JsText.TrimStart | components/InputSection.tsx:39 | the result is a suffix of the input; everything dropped is ECMAScript white space; the result is empty or starts with a non-white-space character |
| JsText.TrimEnd | components/InputSection.tsx:39 | the result is a prefix of the input; everything dropped is white space; the result is empty or ends with a non-white-space character |
| JsText.TrimEmptyIff | components/InputSection.tsx:39 | `s.trim()` is empty exactly when every character of `s` is white space |
| JsText.NatText | components/ResultsSection.tsx:134 | a natural number's text is all digits, has no leading zero, and reads back as the number |
| JsText.IntText | components/ResultsSection.tsx:134 | an integer's text parses back to the integer, starts with `-` exactly when the integer is negative, and its digits have no leading zero (the shortest form) |
| UriComponent.EncodedIsSafe | components/ResultsSection.tsx:256 | the output of `encodeURIComponent` holds only unreserved characters and `%` |
| UriComponent.UnreservedUnchanged | components/ResultsSection.tsx:256 | text made only of unreserved characters comes out of `encodeURIComponent` unchanged |
| UriComponent.UriRoundTrip | components/ResultsSection.tsx:256 | `decodeURIComponent(encodeURIComponent(s)) == s` for every string |
| Gemini.PromptIsHeaderThenSuffix | services/gemini.ts:116-162 | the prompt is the mode's header followed by a suffix that depends only on the fast-track flag |
| Gemini.PromptEmbedsInput | services/gemini.ts:118-131 | the input appears verbatim, unescaped, right after the mode's `User Input ...: "` label |
| Gemini.PromptDeterminesInput | services/gemini.ts:118-131 | two prompts with the same mode and flag are equal only if their inputs are equal |
| Gemini.IdeaPromptContents | services/gemini.ts:119-124 | in idea mode the prompt contains `User Input Topic: "<input>"`, `MODE: Ideation.` and the STEP 2 line |
| Gemini.AbstractPromptContents | services/gemini.ts:126-130 | in abstract mode the prompt contains `User Input Abstract: "<input>"` and `MODE: Evaluation.` |
| Gemini.PromptConfig | services/gemini.ts:114-136 | both modes contain `- Fast Track Mode: true` or `false`, following the flag, and `- Current Simulated Date: December 2025` |
| Gemini.FastTrackChangesPrompt | services/gemini.ts:135 | prompts that differ only in the fast-track flag are different strings |
| Gemini.ModeChangesPrompt | services/gemini.ts:118-131 | an idea-mode prompt never equals an abstract-mode prompt, whatever the inputs and flags |
| Gemini.BuildRequest | services/gemini.ts:164-172 | the request carries the built prompt, the model `gemini-2.5-flash`, the JSON MIME type and the fixed system instruction |
| Gemini.OrEmpty | services/gemini.ts:177-180 | `x \|\| []` for a list: a present list, even an empty one, is kept, and an absent one becomes the empty list |
| Gemini.Normalised | services/gemini.ts:176-183 | an invalid result is returned exactly as parsed; a valid result has all four lists present and a methodology (absent ones default to empty values); present values, `isValid`, the score, the one-liner, the feedback and the generated abstract are never changed |
| Gemini.NormalisedIdempotent | services/gemini.ts:176-182 | normalising twice gives the same result as normalising once |
| Gemini.NormalisedComplete | services/gemini.ts:176-182 | a valid result comes out complete (no absent list or methodology), and a complete result is a fixed point |
| Gemini.ReplyOutcome | services/gemini.ts:174-189 | the outcome is a failure exactly when the call rejects, the text is missing or empty, or parsing fails; otherwise it is the normalised parse |
| Gemini.SuccessNeedsParsedText | services/gemini.ts:174-185 | a success always comes from a non-empty text that parsed, and keeps that parse's `isValid` |
| Gemini.ParsedObject.constructor | services/gemini.ts:175 | the object's fields hold the parsed value |
| Gemini.ParsedObject.Normalise | services/gemini.ts:176-182 | the in-place defaulting leaves the object equal to `Normalised` of its old value, with the untouched fields unchanged |
| Gemini.AnalyzeResearch | services/gemini.ts:108-190 | `analyzeResearch` settles as `ReplyOutcome` of the model's reply to the built request |
| App.StepConsistent | App.tsx:17-37 | every enabled event keeps the state consistent: a result view has a result and no error, an error is the fixed text and comes with no result, and the spinner implies an outstanding request in the input view |
| App.RunConsistent | App.tsx:17-37 | every admissible sequence of events keeps a consistent state consistent |
| App.ReachableConsistent | App.tsx:8-37 | every state reachable from the initial state by admissible events is consistent |
| App.ResetClears | App.tsx:35-45 | Reset from any state gives the input view with no loading, error or result; it keeps `lastInput` and is idempotent |
| App.ScreenSelection | App.tsx:66-96 | in a consistent state the results panel shows exactly in the result view, the input section shows exactly when the results do not, and the error banner never shows with results |
| App.AppComponent.constructor | App.tsx:8-14 | starts in the input view with an empty last input, not loading, no error and no result |
| App.AppComponent.BeginAnalyze | App.tsx:16-18 | turns loading on, clears the error, keeps the previous result and the view, and records the input |
| App.AppComponent.CompleteSuccess | App.tsx:21-23 | stores the result with no error and not loading, and switches to the result view |
| App.AppComponent.CompleteFailure | App.tsx:24-30 | sets the fixed failure message and no result, and leaves the view and the last input unchanged |
| App.AppComponent.Reset | App.tsx:35-38 | returns to the input view with the idle analysis state and keeps the last input |
| InputSection.SubmitCall | components/InputSection.tsx:37-42 | `onAnalyze` gets exactly one call, with the untrimmed input, mode and flag, if and only if the input is not all white space |
| InputSection.SubmitDisabled | components/InputSection.tsx:111 | the submit button is disabled exactly when loading or when the input is all white space |
| InputSection.SubmitGate | components/InputSection.tsx:88-111 | the button is enabled exactly when not loading and a submission would call `onAnalyze`; while loading, the button, text area and switch are all disabled |
| InputSection.NextStep | components/InputSection.tsx:30 | the next message index always lies within the six loading messages |
| InputSection.StepAfterTicks | components/InputSection.tsx:27-31 | after `k` ticks the message index is `k mod 6` |
| InputSection.ModeTextsDiffer | components/InputSection.tsx:71-85 | the heading, the description and the placeholder each differ between the two modes |
| InputSection.ButtonCaption | components/InputSection.tsx:119-131 | while loading the submit button shows the current loading message; otherwise it shows `Analyze Vibe 🔎` |
| InputSection.InputForm.constructor | components/InputSection.tsx:18-21 | starts in idea mode with empty input, fast track off and the first loading message |
| InputSection.InputForm.SelectMode | components/InputSection.tsx:48-59 | a mode tab sets the mode to the chosen one |
| InputSection.InputForm.EditInput | components/InputSection.tsx:86-88 | typing sets the input, and the text area cannot be edited while loading |
| InputSection.InputForm.SetFastTrack | components/InputSection.tsx:98-100 | the switch sets the flag, and cannot be used while loading |
| InputSection.InputForm.LoadingChanged | components/InputSection.tsx:24-35 | when loading starts, the counter restarts at message 0 and the interval is installed; when loading stops, the interval is removed |
| InputSection.InputForm.Tick | components/InputSection.tsx:29-31 | a tick advances the step to `(step + 1) mod 6`, shows that message, and keeps `step == ticks mod 6` |
| InputSection.InputForm.HandleSubmit | components/InputSection.tsx:37-42 | the call passed to `onAnalyze` is the one `SubmitCall` states: present exactly when the input is not blank |
| ResultsSection.FeedbackText | components/ResultsSection.tsx:33 | a non-empty feedback is shown as given; an absent or empty one is replaced by the fixed fallback sentence; the shown text is never empty |
| ResultsSection.ScoreBadge | components/ResultsSection.tsx:133 | 🔥 exactly for a score above 80, ⚖️ exactly for 51 to 80, ❄️ exactly for 50 or below |
| ResultsSection.BadgeMonotone | components/ResultsSection.tsx:133 | a higher score never gets a cooler badge |
| ResultsSection.ScoreText | components/ResultsSection.tsx:134 | the score label is the score's shortest decimal text followed by `%`, and what precedes the `%` parses back to the score |
| ResultsSection.TabNames | components/ResultsSection.tsx:163-175 | there is one tab per conference, in order, each labelled with that conference's name |
| ResultsSection.Render | components/ResultsSection.tsx:22-245 | an invalid result gets only the invalid layout (feedback and echoed input); a valid one gets the panels: the echoed input, the one-liner, the keyword and roadmap lists, the badge and `<score>%` of the score, one tab per conference labelled with its name, the generated abstract exactly when it is present and non-empty, and the methodology and radar exactly when present |
| ResultsSection.NormalisedShowsPanels | components/ResultsSection.tsx:140-218 | a valid reply, once normalised, always shows the methodology panel and the radar chart |
| ResultsSection.VisiblePanels | components/ResultsSection.tsx:180-181 | at most one conference panel is visible: the one whose index is `activeTab`, and only when that index is in range |
| ResultsSection.ResultsView.constructor | components/ResultsSection.tsx:18-19 | the first tab is active and the prompt is hidden |
| ResultsSection.ResultsView.SelectTab | components/ResultsSection.tsx:166 | clicking tab `idx` makes it the active tab |
| ResultsSection.ResultsView.TogglePrompt | components/ResultsSection.tsx:71 | each click flips whether the prompt block shows |
| ResultsSection.PromptButtonCaption | components/ResultsSection.tsx:74 | the toggle reads `Hide System Prompt ℹ️` exactly while the prompt block shows, and `Show Prompt Used ℹ️` exactly while it is hidden |
| ResultsSection.ScholarLink | components/ResultsSection.tsx:256 | the link is the Scholar search prefix followed by `encodeURIComponent(title)`; that query is made only of URI-safe characters and decodes back to the title |
| ResultsSection.GithubLink | components/ResultsSection.tsx:303-305 | a code link exists exactly when `github` is present and non-empty; it is then `https://` followed by `github` verbatim |
| ResultsSection.RenderPaper | components/ResultsSection.tsx:264-313 | title and year always show. Collapsed, only the one-liner shows. Open, the one-liner, the abstract, the Scholar link and the optional code link show |
| ResultsSection.PaperAccordionItem.constructor | components/ResultsSection.tsx:255 | an entry starts collapsed |
| ResultsSection.PaperAccordionItem.Toggle | components/ResultsSection.tsx:261 | each click flips the entry between collapsed and open |

## Left out

- The network call `ai.models.generateContent` and the API key read from the environment: the reply is the parameter `callModel`.
- The internals of `JSON.parse` and the `as AnalysisResult` cast: the parameter `parse`. The `responseSchema` constant is enforced, if at all, by the model provider, so it is not modelled.
- Replies that parse but are not a well-typed `AnalysisResult`. The cast at services/gemini.ts:175 checks nothing, but `parse` only ever yields a well-typed object, so these are outside the model:
  - JSON `0`, `false` or `""`: reading `isValid` gives `undefined` without throwing, and `analyzeResearch` resolves with that value (services/gemini.ts:176-183). App then switches to the result view, but the `&& analysis.result` guard (App.tsx:95) shows no results panel; for `0` React renders the text `0`. In the model a success always carries a result, and `App.Consistent` and `App.ScreenSelection` rely on that.
  - A truthy non-object such as `1`, `true` or `"x"`: it resolves the same way, and ResultsSection renders the invalid layout because `isValid` is `undefined` (components/ResultsSection.tsx:22).
  - An object that lacks fields types.ts requires: a conference without `relevantPapers` throws during render at `conf.relevantPapers.map` (components/ResultsSection.tsx:201). A missing `name`, `title`, `oneLiner` or `abstract` renders as empty text, and a missing `trendMatchScore` shows the ❄️ badge and the bare text `%`, since React renders `undefined` as nothing.
- Score calibration ("50% = Average"): an instruction to the model that nothing local checks.
- `console.error` logging, the timer's 2.5-second period and its cleanup timing, and Mermaid re-rendering.
- `components/RadarChart.tsx`, a wrapper around a charting library; the CSS and JSX markup; the footer's `new Date()` year.
- App interleavings with more than one request outstanding. Reset is allowed while a request is in flight, and the form is then usable again, so a second request could start. The model lets only one request be outstanding (the ghost `pending` flag), and a completion after a Reset is still accepted. The sequence Begin, Reset, Begin, success, failure would end in the result view with no result; the model does not cover it.
- `trendMatchScore` and `oneLiner` are required fields, as types.ts declares them; the code never guards them. `trendMatchScore` is an integer, so JavaScript's text for fractional numbers and for numbers beyond 2^53 is not modelled.
- UriComponent.UriRoundTrip: Dafny strings hold Unicode scalar values only, so the `URIError` that `encodeURIComponent` throws for a lone surrogate cannot arise in the model.
- `decodeURIComponent` is not called by the app. It appears only as the reference definition that the encoding is proved against.
- The invalid layout's Try Again button (components/ResultsSection.tsx:39-44) and the Start Over button (components/ResultsSection.tsx:64-69) are not modelled as parts of the layout. Both call `onReset`, which is App's `handleReset`; that handler is modelled as `App.AppComponent.Reset`.
- InputSection.InputForm.SelectMode: the mode tabs are not disabled while loading, as in the source, so the mode can change during a request; the request already sent is unaffected.
- The fixed text inside the "Show Prompt Used" block, and the markup of the keyword and roadmap lists; `ResultPanels` carries the lists themselves.
