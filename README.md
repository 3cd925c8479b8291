# Decision Copilot, modelled in Dafny

Decision Copilot is a small web application. A user describes a decision,
lists at least two options, writes constraints and picks a risk tolerance.
A FastAPI service asks a language-model agent for a structured analysis. It
strips a markdown code fence from the answer and parses it. When anything on
that path raises, it answers with a deterministic rule-based engine. The
client then shows the analysis as a report with one scored card per option.

This project models the decision rules of that system and proves their
properties. The modules are:

- `Types` (types.dfy): the request and response records shared by
  `backend/models.py` and `src/types.ts`.
- `Strings` (strings.dfy): the string and list built-ins the code relies
  on. These are `strip`/`trim`, `in`, `split`, `join`, `lower` and the array
  `filter`, with the laws the other modules use.
- `Fallback` (fallback.dfy): the rule-based engine `fallback_decision_engine`.
  Its loop is a method, proved equal to a specification function.
  Classification, scoring, first-maximum selection and the constant fields
  are proved as lemmas about that function.
- `Service` (service.dfy): the `/api/analyze` handler. It covers the fence
  cleaning, the prompt, and the dispatch from any failure to the fallback
  engine. The agent and the JSON parse are function parameters.
- `Form` (form.dfy): the form component. Its state is a class whose methods
  are the form's handlers, and the submit pipeline is a function.
- `Home` (home.dfy): the page's view state machine (`analysis`,
  `isLoading`, `error`) as a class. The outcome of the network call is a
  parameter.
- `Render` (render.dfy): the decisions the report view makes. These are the
  colour band of a score, which sections of a card appear, and the order of
  the cards.
- `EndToEnd` (endtoend.dfy): the fallback engine applied to requests the
  form can actually send, and how its result is rendered.

Two behaviours of the code are modelled as written, and lemmas make them
visible:

- The engine compares the risk tolerance case-sensitively with "low" and
  "high". The form only sends "Low", "Medium" and "High". So on every request
  from the form, startups score 7, corporate options 6 and the rest 5,
  whatever risk level was chosen (`EndToEnd.FormLevelsNeverChangeScores`).
- The handler cuts the answer with `split("```json")[1].split("```")[0]`.
  This split chain and "the text after the first "```json" up to the next
  "```"" agree except in one case. They differ exactly when a second "```json"
  starts one or two characters after that next "```", that is four or five
  backticks followed by "json". The chain then keeps one or two backticks
  (`Service.JsonFenceExact`). They agree at least when the text behind the
  fence has no run of four backticks (`Service.JsonFenceCase`).
  `Service.BacktickRunExample` shows the difference for the input
  "```json````json".

## Model

| member | source | states |
|---|---|---|
| `Fallback.Classify` | backend/fallback_ai.py:11-42 | the category is decided on the lower-cased name: startup iff it holds "startup", corporate iff it holds "corporate" but not "startup", general iff it holds neither |
| `Fallback.Score` | backend/fallback_ai.py:26-46 | scores lie in 5..7; a startup scores 5 exactly when the tolerance is the string "low", and 7 otherwise; a corporate option scores 7 exactly when it is "high", and 6 otherwise; a general option always scores 5 |
| `Fallback.Assess` | backend/fallback_ai.py:11-54 | each analysed option keeps the option's name, scores 5, 6 or 7 (so within 0..10), and has non-empty pros, cons and risks |
| `Fallback.MaxFrom` | backend/fallback_ai.py:56 | Python's `max` scan from a position on yields an index whose score is maximal and strictly above every earlier score |
| `Fallback.BestIndex` | backend/fallback_ai.py:56 | `max(analyses, key=score)` selects the first entry of maximal score |
| `Fallback.FirstMaxUnique` | backend/fallback_ai.py:56 | there is only one first-maximal index, so the selection is determined |
| `Fallback.Recommend` | backend/fallback_ai.py:56-69 | fails iff there are no analyses; otherwise the analyses are passed through, the recommendation is the name of the first best-scoring entry, the reasoning is that name plus the fixed sentence, and summary, criteria, trade-offs and confidence are the constants |
| `Fallback.FallbackDecision` | backend/fallback_ai.py:3-69 | the engine fails iff the option list is empty; otherwise it has one analysis per option, in order, each the assessment of that option |
| `Fallback.FallbackDecisionEngine` | backend/fallback_ai.py:3-69 | the imperative loop, with its list appends and score branches, computes exactly `FallbackDecision` |
| `Fallback.ScoreTable` | backend/fallback_ai.py:14-46 | startup names score 5 iff the risk tolerance is exactly "low", else 7; corporate names score 7 iff it is exactly "high", else 6; other names score 5 |
| `Fallback.ClassifyIgnoresCase` | backend/fallback_ai.py:11 | classification depends only on the lower-cased name |
| `Fallback.StartupBeforeCorporate` | backend/fallback_ai.py:14-28 | a name containing both "startup" and "corporate" is classified as a startup and gets the startup risks |
| `Fallback.RecommendationIsFirstBestOption` | backend/fallback_ai.py:56-67 | for a non-empty option list the recommendation is the name of an input option with maximal score and no earlier option scoring as much, and the reasoning is that name followed by the fixed sentence |
| `Service.CleanFences` | backend/main.py:42-46 | the cleaned text is a contiguous piece of the agent's answer: cleaning only cuts and strips, it never adds text |
| `Service.NoFenceNoJsonFence` | backend/main.py:43-45 | text without "```" has no "```json" |
| `Service.UnfencedTextUnchanged` | backend/main.py:42-46 | text without a fence comes back unchanged, not even stripped |
| `Service.BeforeOfPrefix` | backend/main.py:44 | cutting a prefix at the first marker agrees with cutting the whole text when its first marker ends inside the prefix |
| `Service.OverlappingFences` | backend/main.py:44 | two fences less than three characters apart form a run of four backticks |
| `Service.JsonFenceCase` | backend/main.py:43-44 | with a "```json" fence, and no run of four backticks after it, the result is the stripped text after the fence up to the next "```" |
| `Service.JsonFenceExact` | backend/main.py:43-44 | with a "```json" fence the result is the stripped text after it up to the next "```", except exactly when a second "```json" starts one or two characters after that "```"; then it is the stripped text up to that second "```json" |
| `Service.PlainFenceCase` | backend/main.py:45-46 | with only bare fences the result is the stripped text between the first and second "```", or everything after the only one |
| `Service.SplitChains` | backend/main.py:43-46 | the handler's split-and-index chains are defined (the index 1 exists) and equal the cleaning function |
| `Service.BacktickRunExample` | backend/main.py:44 | for "```json````json" the split chain yields "`", not the text up to the next "```" |
| `Service.CleanedHasNoFence` | backend/main.py:42-46 | after cleaning text that had a fence, no "```" remains |
| `Service.CleaningIdempotent` | backend/main.py:42-46 | cleaning twice is cleaning once |
| `Service.OptionLines` | backend/main.py:32 | one `- name: description` line per option, in order |
| `Service.BuildPrompt` | backend/main.py:26-33 | the prompt is exactly its lines joined by line breaks: a blank line, the context, risk and constraints lines, a blank line, the options heading, one line per option, and a final empty piece |
| `Service.PromptLayout` | backend/main.py:26-33 | when no field contains a line break, splitting the prompt on line breaks gives back the context, risk, constraints ("None" when empty, else joined by ", ") and option lines |
| `Service.AnalyzeDecision` | backend/main.py:35-60 | the response is the parsed agent answer when the agent answers and the cleaned text parses; in every other case it is exactly the fallback engine applied to the request's own fields |
| `Strings.Trim` | src/components/DecisionForm.tsx:37 | the stripped text has no leading or trailing whitespace, and is empty iff the text was all whitespace (what it keeps is `Strings.TrimRemovesOnlyEdges`) |
| `Strings.TrimRemovesOnlyEdges` | src/components/DecisionForm.tsx:37 | the stripped text is one contiguous piece of the input with only whitespace before and after it |
| `Strings.Find` | backend/main.py:43 | `find` returns the first position at or after the start where the pattern occurs, or nothing when it occurs nowhere from there |
| `Strings.Contains` | backend/main.py:43 | `p in s` holds iff `p` occurs in `s` at some position |
| `Strings.After` | backend/main.py:44 | the text after the first separator is the suffix that starts right after the separator's first occurrence |
| `Strings.Split` | backend/main.py:44 | a split has at least one piece, and no piece contains the separator |
| `Strings.JoinCons` | backend/main.py:29 | `sep.join` of a first piece followed by a non-empty list is that piece, the separator, and the join of the rest |
| `Strings.Before` | backend/main.py:44 | `split(sep)[0]` is a prefix that holds no separator; it is shorter than the text iff the separator occurs, and the separator then starts right after it |
| `Strings.SplitPieces` | backend/main.py:44 | the first piece of a split is the text before the separator; a second piece exists iff the separator occurs |
| `Strings.SplitConcat` | src/components/DecisionForm.tsx:37 | splitting on a one-character separator distributes over text joined by it |
| `Strings.JoinSplit` | backend/main.py:44 | joining the split pieces restores the text |
| `Strings.SplitJoin` | backend/main.py:32 | splitting lines joined by a character none of them contains restores the lines |
| `Strings.Lower` | backend/fallback_ai.py:11 | lower-casing keeps the length and maps each character |
| `Strings.LowerIdempotent` | backend/fallback_ai.py:11 | lower-casing twice is lower-casing once |
| `Strings.Filter` | src/components/DecisionForm.tsx:38 | the filtered list is no longer than the input and every kept element passes |
| `Strings.FilterConcat` | src/components/DecisionForm.tsx:38 | filtering commutes with concatenation, so order is kept |
| `Strings.FilterMembership` | src/components/DecisionForm.tsx:38 | an element survives iff it was present and passes |
| `Form.WithoutIndex` | src/components/DecisionForm.tsx:25 | the index filter removes exactly the element at an in-range index, keeping the others in order, and removes nothing for an out-of-range index |
| `Form.WithField` | src/components/DecisionForm.tsx:31 | the named field of the option takes the value and the other field is kept |
| `Form.TrimAll` | src/components/DecisionForm.tsx:37 | every line is trimmed, one result per line |
| `Form.ParseConstraints` | src/components/DecisionForm.tsx:37 | every constraint sent is non-empty and has no leading or trailing whitespace |
| `Form.ConstraintMembership` | src/components/DecisionForm.tsx:37 | a string is sent as a constraint iff it is non-empty and is the trimmed form of some line of the text |
| `Form.ConstraintsInOrder` | src/components/DecisionForm.tsx:37 | constraints keep the order of the lines: two blocks joined by a line break give the first block's constraints, then the second's |
| `Form.SingleLineConstraint` | src/components/DecisionForm.tsx:37 | a single line gives its trimmed form, or nothing when it is blank |
| `Form.BlankTextHoldsNone` | src/components/DecisionForm.tsx:37 | a text made only of whitespace and line breaks gives no constraint |
| `Form.BlankLinesDropped` | src/components/DecisionForm.tsx:37 | blank lines between two blocks contribute nothing |
| `Form.ValidOptions` | src/components/DecisionForm.tsx:38 | every option sent has a non-blank name, and there are no more than in the form |
| `Form.ValidOptionMembership` | src/components/DecisionForm.tsx:38 | an option is sent iff it is in the form and its trimmed name is non-empty; it is sent unmodified |
| `Form.ValidOptionsInOrder` | src/components/DecisionForm.tsx:38 | the option filter keeps the order of the form |
| `Form.BlankOptionDropped` | src/components/DecisionForm.tsx:38 | an option with a blank name between two named ones is dropped |
| `Form.SubmitFields` | src/components/DecisionForm.tsx:35-48 | a request is produced iff the description is not the empty string and at least two options have a name; it carries the description, the named options, the parsed constraints and the risk tolerance |
| `Form.WhitespaceDescriptionAccepted` | src/components/DecisionForm.tsx:40 | a description of only a space passes the guard |
| `Form.DecisionForm.constructor` | src/components/DecisionForm.tsx:14-17 | the form starts with two empty options, empty description and constraints, and risk tolerance "Medium" |
| `Form.DecisionForm.SetDescription` | src/components/DecisionForm.tsx:64 | typing in the description box replaces the description and nothing else |
| `Form.DecisionForm.SetConstraints` | src/components/DecisionForm.tsx:120 | typing in the constraints box replaces the constraints text and nothing else |
| `Form.DecisionForm.SelectRiskTolerance` | src/components/DecisionForm.tsx:130-137 | a radio button sets the risk tolerance to "Low", "Medium" or "High" and nothing else |
| `Form.DecisionForm.AddOption` | src/components/DecisionForm.tsx:19-21 | one empty option is appended at the end; the existing options are unchanged |
| `Form.DecisionForm.RemoveOption` | src/components/DecisionForm.tsx:23-27 | with more than two options the one at the index is removed; otherwise nothing changes, so the list never drops below two |
| `Form.DecisionForm.UpdateOption` | src/components/DecisionForm.tsx:29-33 | only the named field of the option at the index changes; the length and all other options stay as they were |
| `Form.DecisionForm.Submission` | src/components/DecisionForm.tsx:35-48 | the form's current fields give a request exactly when the description is non-empty and at least two options are named; it holds the named options and the parsed constraints |
| `Form.SubmittedRequestWellFormed` | src/components/DecisionForm.tsx:35-48 | a submitted request has a non-empty description, at least two options with non-blank names, trimmed non-empty constraints and one of the three risk levels |
| `Home.Home.constructor` | src/app/page.tsx:10-12 | the page starts with no analysis, not loading and no error |
| `Home.Home.BeginAnalyze` | src/app/page.tsx:14-22 | entering the handler turns loading on, clears the error, keeps the analysis and issues one request |
| `Home.Home.Settle` | src/app/page.tsx:24-35 | an ok response sets the analysis and leaves no error; a non-ok status or an exception sets the fixed message and keeps the analysis; loading ends off either way |
| `Home.Home.HandleAnalyze` | src/app/page.tsx:14-36 | exactly one request per call, loading off at the end, and either an analysis with no error or the fixed error message |
| `Home.Home.HandleReset` | src/app/page.tsx:38-41 | analysis and error are cleared and loading is left as it was |
| `Home.Home.SubmitForm` | src/app/page.tsx:81-82 | a request is sent iff the form is on screen (no analysis), the button is enabled (not loading), the browser's `required` check passes (non-empty description and option names) and the form's guard passes; a sent request ends in the page state of `HandleAnalyze` (the payload shown and no error on success, the old analysis and the fixed failure message otherwise) |
| `Render.ScoreBand` | src/components/AnalysisResult.tsx:92-96 | green iff the score is at least 8, yellow iff it is in 5..7, red iff it is below 5 |
| `Render.BandMonotone` | src/components/AnalysisResult.tsx:92-96 | a higher score never gets a lower band |
| `Render.OptionCard` | src/components/AnalysisResult.tsx:84-127 | a card shows the name, score and band; pros and cons always appear; the risks section appears iff there is a risk, and then lists the risks |
| `Render.AnalysisReport` | src/components/AnalysisResult.tsx:11-82 | one card per analysed option in order, and the criteria and trade-offs in order |
| `Render.EveryOptionShown` | src/components/AnalysisResult.tsx:62-64 | every analysed option appears as its own card |
| `EndToEnd.DefaultScore` | backend/fallback_ai.py:26-46 | for any risk tolerance other than exactly "low" or "high", startups score 7, corporate options 6 and the rest 5 |
| `EndToEnd.FormLevelsNeverChangeScores` | backend/fallback_ai.py:26-40 | with "Low", "Medium" or "High" the score never depends on the risk tolerance |
| `EndToEnd.SubmittedRequestsGetAFallbackAnswer` | src/components/DecisionForm.tsx:40-47 | a request the form submits never makes the fallback engine fail, and its scores ignore the chosen risk level |
| `EndToEnd.FallbackCardsAreYellowWithRisks` | src/components/AnalysisResult.tsx:92-123 | every card of a fallback report carries its option's name, has the yellow band and shows a risks section |
| `EndToEnd.RecommendedCardHasTopBand` | backend/fallback_ai.py:56-66 | in a report assembled by the engine, the recommended option's card has a band at least as good as every other card |

## Left out

- backend/agent.py is not part of this model. Environment loading, client construction and model fallback are process configuration and foreign calls. The agent is a function parameter of `Service.AnalyzeDecision`.
- The FastAPI app, CORS middleware, uvicorn start-up and the `await` on the agent are transport and concurrency; they are left out.
- `json.loads` and pydantic construction are modelled only as one partial function, `parse`. Which texts parse, and pydantic's field validation, are not modelled.
- Pydantic field descriptions and defaults in backend/models.py are left out; only the record shapes are modelled.
- The `print` statements in backend/main.py and `console.error` in src/app/page.tsx are output only; they are left out.
- `fetch`, `JSON.stringify`, `res.json()` and async suspension in src/app/page.tsx are left out. The call's ending is the `FetchOutcome` parameter: ok with a payload, a non-ok status, or thrown. The requests issued are recorded in a ghost log.
- The confidence score is a float in the source; it is an exact `real` here and only passed through. The confidence bar width and its `toFixed` percentage are not modelled.
- Styling classes, icons, framer-motion animation and layout markup are left out; only the band identity and which sections appear are modelled.
- Strings.Trim: the whitespace set is a chosen set of six characters (space, tab, line feed, carriage return, vertical tab, form feed). Python's `strip` also removes \x1c to \x1f and other Unicode spaces, and JavaScript's `trim` also removes U+00A0, U+FEFF and other Unicode spaces; those are not modelled.
- Strings.Lower: only ASCII letters are lower-cased, not Python's full Unicode case mapping.
- Home.Home.SubmitForm: it models one submission that runs to completion. Interleavings of several in-flight requests are not modelled; the button is disabled while one is loading.
- Home.Home.SubmitForm: the form is a parameter, not part of the page's state. The page unmounts the form while a report is shown, so after `HandleReset` the form is a new one in the state of `Form.DecisionForm.constructor`; the model does not tie the two together.
- The static text of the page and the form (headings, placeholders, the hero text) is left out.
