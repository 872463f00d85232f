# ArchiGen (PlotAI) in Dafny

ArchiGen is a React front end for a generative floor-plan service. The user fills in a
requirements form: bedroom count, hall, kitchen and balcony, total area, country and notes.
The app then runs three service stages one after another:

1. an analysis that returns a structured plan description (JSON text);
2. an image generation that returns the rendered plan as inline base64 data;
3. a visual audit of that image against the country's building bylaws.

Around these calls sits a small amount of exact logic, and this project models it:

- the post-processing in `services/gemini.ts`:
  - the trim and code-fence stripping of model replies;
  - the brace-slice retry of a failed `JSON.parse`;
  - the utilised-area and efficiency-score defaults;
  - the scan of the image response for its first inline image;
  - the `data:` URI built from that image and split again by the audit;
  - the audit's catch-all fallback finding;
- the workflow in `App.tsx`: the state cells `appState`, `requirements`, `result` and
  `errorMsg`; `handleGenerate`, `handleReset` and `getLoadingStage`;
- the editing rules of `components/PlanForm.tsx`:
  - single-field record update;
  - the bedroom counter clamped to [1, 10];
  - the three feature toggles;
  - the area input's fallback to 0.

Modules, one per file:

| file | module | models |
|---|---|---|
| `wrappers.dfy` | `Wrappers` | `Option` and `Result` (a thrown error is `Err(message)`) |
| `types.dfy` | `Types` | the records and the `AppState` enum of `types.ts` |
| `constants.dfy` | `Constants` | `DEFAULT_REQUIREMENTS` |
| `js_text.dfy` | `JsText` | the JavaScript string built-ins used: `trim`, `startsWith`, `indexOf`, `lastIndexOf`, `substring`, `split` on one character; `StartsWith` and `EndsWith` with slicing also stand for the anchored `replace` calls (`/^```json/`, `/^```/`, `/```$/`) |
| `gemini.dfy` | `Gemini` | the service layer, over a `Backend` |
| `plan_form.dfy` | `PlanForm` | the form's record updates |
| `app.dfy` | `App` | the workflow: the pure `Run` and the class `Controller` |

How external behaviour is represented:

- **Service calls and the parser.** The three service calls and `JSON.parse` are total
  functions held in a `Backend` value. Each maps its request to what the call returns, or to
  the message of what it throws.
- **Parsed JSON.** A parsed value (`Json`) is only as detailed as its callers need: `null`,
  an array of findings, an object with the analysis fields, or some other primitive.
- **Numbers.** `Number(...)` is an `Option<real>`, where `None` stands for NaN.
  `Math.round(x)` is `floor(x + 0.5)` over the reals.
- **The workflow's stages.** `App` takes its stages as a `Stages` value, and
  `App.GeminiStages` instantiates them with the service layer. `Date.now()` is a parameter.
- **Ghost history.** `Controller` records every state it enters (`history`) and every stage
  it invokes (`calls`) in ghost fields.
- **The pure run.** `App.Run` gives the outcome of a whole run as a value.
  `HandleGenerate` is proved to leave exactly that outcome.

Behaviour worth knowing, modelled as the code has it:

- The fence stripper removes a leading "```json", then a leading "```", then a trailing
  "```", each only where present. So "```json" + B + "```" yields B only when B does not
  itself open with "```", and "```" + B + "```" yields B only when B does not open with
  "json".
- JavaScript's `substring` swaps its bounds when the start is past the end. So when every
  `}` precedes the first `{`, the retry parses the text strictly between the last `}` and
  the first `{` (`Gemini.SwappedSliceRetried`).
- A reply that parses to `null` makes the field read throw a `TypeError`. That message
  becomes the run's error text.
- A parsed efficiency score that is non-zero is kept with no range check. Only a
  recomputed score is confined to [0, 100].
- The audit stage never throws. Every failure, including a URL without a colon, yields the
  single "Automated Visual Inspection" warning. So a run whose first two stages succeed
  always ends on the result screen.

## Model

| member | source | states |
|---|---|---|
| JsText.Trim | services/gemini.ts:78 | the trimmed text is empty or begins and ends with a non-whitespace character |
| JsText.TrimStart | services/gemini.ts:78 | leading whitespace is dropped: the result is a suffix, everything dropped is whitespace, and it does not start with whitespace |
| JsText.TrimEnd | services/gemini.ts:78 | trailing whitespace is dropped: the result is a prefix, everything dropped is whitespace, and it does not end with whitespace |
| JsText.TrimIsInfix | services/gemini.ts:78 | the trimmed reply is a contiguous piece of the reply |
| JsText.TrimUnchanged | services/gemini.ts:78 | text with no whitespace at either end is left unchanged by trim |
| JsText.IndexOf | services/gemini.ts:87 | -1 exactly when the character is absent; otherwise a position holding it with none before it |
| JsText.LastIndexOf | services/gemini.ts:88 | -1 exactly when the character is absent; otherwise a position holding it with none after it |
| JsText.IndexOfUnique | services/gemini.ts:87 | a position holding the character with none before it is the one indexOf returns |
| JsText.Substring | services/gemini.ts:90 | substring gives the characters between the bounds in either order (`s[start..end]` or `s[end..start]`), the whole text for bounds beyond both ends, and never more than the text |
| JsText.SubstringSymmetric | services/gemini.ts:90 | swapping the two bounds gives the same text |
| JsText.StartsWith | services/gemini.ts:79-80 | `startsWith` and the `^`-anchored `replace` test; no contract of its own, used by the fence lemmas (`Gemini.JsonFenceStripped`, `Gemini.PlainFenceStripped`, `Gemini.StripFencesIsInfix`) |
| JsText.EndsWith | services/gemini.ts:80 | the `$`-anchored `replace` test; no contract of its own, used by the same fence lemmas |
| JsText.Split | services/gemini.ts:168-169 | split yields at least one piece, and no piece contains the separator |
| JsText.JoinSplit | services/gemini.ts:168-169 | joining the pieces of a split with the separator gives the text back |
| JsText.SplitAfter | services/gemini.ts:168-169 | when the first separator follows p, the pieces are p and then the pieces of the rest |
| JsText.SplitHeadPrefix | services/gemini.ts:169 | a separator-free prefix stays at the head of the first piece |
| Gemini.StripFences | services/gemini.ts:79-81 | the three anchored replacements; no contract of its own, its properties are the rows `Gemini.StripFencesIsInfix`, `Gemini.JsonFenceStripped` and `Gemini.PlainFenceStripped` |
| Gemini.CleanResponse | services/gemini.ts:78-81 | trim, then the fence strip; no contract of its own, see `Gemini.CleanResponseIsInfix` and `Gemini.UnfencedPassesThrough` |
| Gemini.StripFencesIsInfix | services/gemini.ts:79-81 | the fence-stripped text is always a contiguous piece of the trimmed text |
| Gemini.CleanResponseIsInfix | services/gemini.ts:78-81 | the text handed to the parser is a contiguous piece of the raw reply |
| Gemini.UnfencedPassesThrough | services/gemini.ts:78-81 | trimmed text that does not open with a fence reaches the parser as trimmed; text with no whitespace at either end, unchanged |
| Gemini.JsonFenceStripped | services/gemini.ts:79-80 | "```json" + B + "```" hands exactly B to the parser when B does not open with "```" |
| Gemini.PlainFenceStripped | services/gemini.ts:79-80 | "```" + B + "```" hands exactly B to the parser when B does not open with "json" |
| Gemini.ParseWithRecovery | services/gemini.ts:84-94 | the parse with its brace-slice retry; no contract of its own, see `Gemini.ParsedFirstTime`, `Gemini.BraceSliceRetried`, `Gemini.MissingBraceRethrows` and `Gemini.SwappedSliceRetried` |
| Gemini.ParsedFirstTime | services/gemini.ts:84-85 | a text the parser accepts is parsed once and its value kept |
| Gemini.BraceSliceRetried | services/gemini.ts:86-90 | after a failed parse, with a `{` at or before the last `}`, the retry parses exactly the slice from the first `{` to the last `}` inclusive |
| Gemini.MissingBraceRethrows | services/gemini.ts:86-93 | after a failed parse, with either brace missing, the first parse error is rethrown |
| Gemini.SwappedSliceRetried | services/gemini.ts:87-90 | after a failed parse, with every `}` before the first `{`, the retry parses the brace-free text between the last `}` and the first `{` |
| Gemini.Round | services/gemini.ts:100 | Math.round gives the integer within one half below and strictly less than one half above |
| Gemini.UtilizedArea | services/gemini.ts:96 | the utilised area; no contract of its own, see `Gemini.UtilizedAreaRule` |
| Gemini.EfficiencyScore | services/gemini.ts:97-105 | the score rule; no contract of its own, see `Gemini.ParsedScoreKept`, `Gemini.RecomputedScoreInRange`, `Gemini.NeutralScoreFallback` and `Gemini.ScoreExamples` |
| Gemini.TextOr | services/gemini.ts:108-109 | the `||` on a text field; no contract of its own, see `Gemini.AnalysisDefaults` |
| Gemini.UtilizedAreaRule | services/gemini.ts:96 | the utilised area is the parsed one when non-zero and numeric, else 90% of the total area rounded to an integer |
| Gemini.ParsedScoreKept | services/gemini.ts:97-98 | a non-zero numeric parsed score is returned as it is |
| Gemini.RecomputedScoreInRange | services/gemini.ts:98-101 | with both areas positive, the recomputed score is an integer in [0, 100]: the rounded percentage up to 100, and 99 above it |
| Gemini.NeutralScoreFallback | services/gemini.ts:98-104 | without a parsed score or two positive areas the score is 88 |
| Gemini.ScoreExamples | services/gemini.ts:96-105 | 950 of 1000 scores 95, 1200 of 1000 scores 99 (not 120), nothing of 0 scores 88 |
| Gemini.ShapeAnalysis | services/gemini.ts:96-114 | the record is built exactly when the parsed value is not null (else the TypeError); it has an empty compliance list and non-empty texts |
| Gemini.AnalysisDefaults | services/gemini.ts:107-114 | each text is the parsed one when non-empty, else its default; the room list is the parsed array or empty; area and score follow the two rules above |
| Gemini.GeneratePlanAnalysis | services/gemini.ts:74-118 | the analysis stage after its call; no contract of its own, see `Gemini.AnalysisOutcomes`, `Gemini.ShapeAnalysis` and `Gemini.AnalysisDefaults` |
| Gemini.AnalysisOutcomes | services/gemini.ts:74-94 | a failed call passes its error on; an absent or empty reply fails with "No data received from analysis model"; otherwise the parser's error or the shaped record is the result |
| Gemini.ImagePrompt | services/gemini.ts:133 | the image instruction is the visual description followed by exactly the fixed suffix |
| Gemini.HasImage | services/gemini.ts:147 | a part qualifies when its inline data is non-empty; used by `Gemini.ScanFindsFirst` and `Gemini.ScanFindsNone` |
| Gemini.DataUri | services/gemini.ts:148 | the `data:<mime>;base64,<data>` text; its inverse is the row `Gemini.DataUriRoundTrip` |
| Gemini.PartUri | services/gemini.ts:148 | the data URI of a qualifying part, image/png when the MIME type is missing or empty; see `Gemini.ScanFindsFirst` and `Gemini.VisionRequestCarriesImage` |
| Gemini.ScanParts | services/gemini.ts:146-153 | the scan of the parts in order; no contract of its own, see `Gemini.ScanFindsFirst` and `Gemini.ScanFindsNone` |
| Gemini.ImageStage | services/gemini.ts:144-153 | the image stage after its call; no contract of its own, the loop `Gemini.GeneratePlanImage` is proved equal to it |
| Gemini.ScanFindsFirst | services/gemini.ts:144-149 | the image is the data URI of the first part, in order, with non-empty inline data, with the MIME type defaulting to image/png |
| Gemini.ScanFindsNone | services/gemini.ts:145-153 | with no qualifying part the stage fails with "The AI model returned text but no image." |
| Gemini.GeneratePlanImage | services/gemini.ts:144-153 | the loop with early return yields exactly the image-stage result: the call's error, the no-image error without parts, else the scan's result |
| Gemini.SplitDataUri | services/gemini.ts:168-169 | the two splits of the audit; no contract of its own, see `Gemini.DataUriRoundTrip` |
| Gemini.DataUriPayload | services/gemini.ts:168 | splitting a built data URI at commas gives the header and the payload |
| Gemini.DataUriMimeType | services/gemini.ts:169 | the piece after the first colon, cut at the first semicolon, is the MIME type that was put in |
| Gemini.DataUriRoundTrip | services/gemini.ts:148-169 | splitting a built data URI recovers its MIME type and payload when the MIME type has no `:`, `;` or `,` and the payload no `,` |
| Gemini.DefaultMimeTypeRoundTrip | services/gemini.ts:148-169 | the default image/png survives the round trip |
| Gemini.VisionRequestCarriesImage | services/gemini.ts:168-194 | the audit of an image the scan produced is sent that image's own MIME type and payload |
| Gemini.ValidatePlanWithVision | services/gemini.ts:166-233 | the audit stage after its call; no contract of its own, see `Gemini.VisionOutcomes` and `Gemini.VisionRequestCarriesImage` |
| Gemini.VisionOutcomes | services/gemini.ts:166-233 | the audit never fails: every failure gives the one "Automated Visual Inspection" warning, a parsed array is returned, any other parsed value gives no findings |
| PlanForm.FieldsDetermineRecord | types.ts:10-18 | two requirement records that agree on every field are equal |
| PlanForm.HandleChange | components/PlanForm.tsx:14-16 | the named field takes the value and every other field keeps its own |
| PlanForm.DecrementRooms | components/PlanForm.tsx:70 | the − button lowers the count by one but never below 1, and changes nothing else |
| PlanForm.IncrementRooms | components/PlanForm.tsx:75 | the + button raises the count by one but never above 10, and changes nothing else |
| PlanForm.Toggle | components/PlanForm.tsx:83-99 | a tile click negates its own flag and changes nothing else |
| PlanForm.ToggleTwice | components/PlanForm.tsx:83-99 | clicking a tile twice restores the record |
| PlanForm.EditArea | components/PlanForm.tsx:38 | the area becomes the parsed integer, or 0 when the parse yields NaN, and nothing else changes |
| PlanForm.ApplyEvent | components/PlanForm.tsx:38-114 | only the two counter buttons change the bedroom count |
| PlanForm.ApplyEvents | components/PlanForm.tsx:38-114 | the record after a sequence of form events; no contract of its own, see `PlanForm.EventsKeepRoomsInRange` |
| PlanForm.EventKeepsRoomsInRange | components/PlanForm.tsx:70-75 | one form event keeps the bedroom count in [1, 10] |
| PlanForm.EventsKeepRoomsInRange | components/PlanForm.tsx:70-75 | any sequence of form events keeps the bedroom count in [1, 10] |
| App.DefaultRequirementsInRange | constants.ts:12-20 | the form's starting record has 2 bedrooms, inside [1, 10] |
| App.LoadingStageOf | App.tsx:58-62 | analysis shows ANALYZING, image generation RENDERING, and every other state AUDITING, each in both directions |
| App.ErrorText | App.tsx:47 | the error text is the error's own message when that is non-empty and the fixed "An unexpected error occurred while generating the plan." otherwise, so never empty |
| App.GeminiStages | App.tsx:22-30 | the three stages the handler awaits, taken from the service layer; no contract of its own, see `App.GeminiRun` |
| App.Run | App.tsx:16-50 | a run ends in RESULT exactly when the analysis and image stages succeed, else in ERROR; a plan is held exactly on RESULT and a non-empty message exactly on ERROR; the run first enters GENERATING_ANALYSIS and first calls the analysis |
| App.SuccessfulRun | App.tsx:18-44 | a successful run enters the three loading states then RESULT, calls the three stages in order, and keeps the image URL, the timestamp and the analysis with only its compliance list replaced by the audit |
| App.AnalysisFailureStopsRun | App.tsx:22-49 | a failed analysis calls no other stage and ends in ERROR with its message or the generic one |
| App.ImageFailureStopsRun | App.tsx:26-49 | a failed image generation never reaches the audit and ends in ERROR with its message or the generic one |
| App.GeminiRun | App.tsx:22-44 | over the service layer a run ends in RESULT exactly when analysis and image succeed, and the plan carries the audit of the image it shows |
| App.LoadingLabelsOfSuccessfulRun | App.tsx:58-62 | a successful run shows the analysing, rendering and auditing labels in that order |
| App.Controller.constructor | App.tsx:11-14 | the app starts on the input screen with the default requirements, no plan and no message |
| App.Controller.Edit | App.tsx:95-100 | a form event on the input screen replaces the requirements by the edited record and keeps the invariant |
| App.Controller.Enter | App.tsx:18-48 | setting the state records it and changes nothing else |
| App.Controller.Fail | App.tsx:45-49 | the catch branch records the error text and then enters ERROR |
| App.Controller.HandleGenerate | App.tsx:16-50 | from the input screen a run leaves exactly the state, plan and message of `Run`, appends the states it entered and the stages it called, keeps the requirements, and preserves the invariant that a plan is held exactly on RESULT and a message exactly on ERROR |
| App.Controller.HandleReset | App.tsx:52-56 | reset from any state gives the input screen with no plan and no message, and keeps the invariant |

## Left out

- The generative-service calls and client construction (services/gemini.ts:5, 44-72, 128-142, 186-213) are external I/O. Their replies and failures are the `Backend` fields.
- The prompt texts (services/gemini.ts:13-41, 171-184) are natural-language instructions and are not modelled. The image prompt is modelled only as the visual description plus its fixed suffix.
- The JSON grammar, `Number()` coercion and `parseInt` are not modelled. Their outcomes are inputs: a `Json` value, `Option<real>` and `Option<int>`.
- Gemini.Round: models `Math.round` over the reals, not IEEE-754 doubles, so floating-point rounding in `utilized / total * 100` is not captured.
- Gemini.ShapeAnalysis: a parsed text field that holds a truthy non-string value (a number, say) is treated like a missing one and replaced by its default, where the source would pass that value on. The parser abstraction yields only a string or nothing for those fields.
- `console.error` logging and `process.env` access are left out.
- `Date.now()` is the `now` parameter.
- The async scheduling is left out; the three awaits are strictly sequential and are straight-line code here.
- App.Controller.HandleGenerate: requires the input screen, because the form that submits it is rendered only there (App.tsx:85-101). A second submission while a run is in progress cannot happen in the UI and is not modelled.
- The intermediate clearing of `errorMsg` at the start of a run (App.tsx:19) is modelled in `HandleGenerate`. The contract states only the final value, which is `None` on success.
- All JSX rendering is left out.
- ResultView.tsx, which only displays and downloads, and LoadingState.tsx, whose timer-driven step counter is UI only, are not part of this model.
- The `COUNTRIES` list and the loading messages in constants.ts are display data. The country is any string.
