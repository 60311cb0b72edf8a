# Story-generation form: verified model of its session core

The component is a single-page form (`src/App.tsx`) that collects a story
outline, a genre and a target length, sends a templated prompt to a
generative-language provider and shows the streamed reply as it arrives.
This project models the part of it that has logic:

- **Catalog** — the `GENRES` and `WORD_COUNTS` tables, their `find`
  lookups (an unknown identifier yields `None`, JavaScript's `undefined`),
  and the length-button caption `label.split(' ')[0]`.
- **Prompt** — the prompt template with its three substitutions, exactly as
  the template literal renders them (`${undefined}` prints `undefined`),
  and a reader `ParsePrompt` that recovers the substituted values, so that
  building and reading back form a proved round trip.
- **Session** — the six state cells (`outline`, `genre`, `wordCount`,
  `isGenerating`, `result`, `error`), the start handler (validation with
  `trim`, reset, request), the chunk loop, `catch` and `finally`, and the
  form setters; both as a whole-click function `Generate` over an abstract
  `Stream` (chunks plus how it ended) and as a per-event transition `Step`
  folded by `Run`, with a lemma that the two agree.
- **Text** — the string primitives: ECMAScript whitespace and `trim`,
  decimal rendering of numbers, text before the first separator, substring
  containment.
- **Scenarios** — the worked examples: `["A","","C"]` gives `"AC"`, a
  failure after `["Once ", "upon"]` keeps `"Once upon"`, and the
  science-fiction / medium request carries `科幻题材`, `20000` and the outline.

The network stream is a parameter: a finite sequence of chunks (each with
optional text) and an ending, `Completed` or `Failed(message)`.

Two behaviours of the code shape the model. `handleGenerate` has no
re-entrance guard of its own: a second start while a generation runs is
prevented only by disabling the button (src/App.tsx:171), so the start
handler is modelled with the precondition "not generating". And an
identifier missing from a table is not rejected: the failed lookup is
substituted into the prompt as `undefined` (src/App.tsx:41-47), which the
model reproduces.

## Model

| member | source | states |
|---|---|---|
| Text.TrimStart | src/App.tsx:30 | the result is a suffix of the input, everything removed is whitespace, and the result does not begin with whitespace |
| Text.TrimEnd | src/App.tsx:30 | the result is a prefix of the input, everything removed is whitespace, and the result does not end with whitespace |
| Text.Trim | src/App.tsx:30 | `trim()` yields a slice of the input that neither begins nor ends with whitespace, with only whitespace cut off on either side |
| Text.TrimEmptyIffBlank | src/App.tsx:30 | `outline.trim()` is empty exactly when every character of the outline is whitespace (both directions) |
| Text.ShowNat | src/App.tsx:47 | the rendered number is a non-empty string of decimal digits with no leading zero |
| Text.ParseShowNat | src/App.tsx:47 | reading the rendered digits back yields the number, so the rendering loses nothing |
| Text.ShowNatInjective | src/App.tsx:47 | distinct word-count targets render as distinct text |
| Text.BeforeFirst | src/App.tsx:153 | `split(sep)[0]`: a prefix of the input free of the separator that stops at the first separator or at the end |
| Text.BeforeFirstOf | src/App.tsx:153 | for a separator-free head followed by the separator, the split yields exactly that head |
| Catalog.Find | src/App.tsx:41-42 | `find` on either table returns `None` exactly when no entry has the identifier, and otherwise the first entry that has it |
| Catalog.GenreLabel | src/App.tsx:41 | `?.label` is present exactly when the identifier is listed, and is then that entry's label |
| Catalog.TargetWords | src/App.tsx:42 | `?.value` is present exactly when the identifier is listed, and is then that entry's word count |
| Catalog.Caption | src/App.tsx:153 | a length button's caption is its label up to, not including, the first space |
| Catalog.IdentifiersDistinct | src/App.tsx:6-19 | no identifier occurs twice in either table, so a lookup has one possible answer |
| Catalog.GenreLabels | src/App.tsx:6-13 | there are six genres, each identifier resolves to the label beside it, and the first entry is `scifi` / `科幻题材` |
| Catalog.TargetValues | src/App.tsx:15-19 | `short`, `medium` and `long` resolve to exactly 5000, 20000 and 50000 words, and every other identifier to nothing |
| Catalog.UnlistedResolvesToNothing | src/App.tsx:41-42 | an identifier outside a table resolves to nothing |
| Catalog.WordCountTargets | src/App.tsx:15-19 | each length identifier resolves to the word count written beside it |
| Catalog.Captions | src/App.tsx:15-19 | the three button captions are `短篇`, `中篇` and `长篇` |
| Catalog.LabelsSingleLine | src/App.tsx:6-13 | no genre label contains a line break |
| Prompt.ShowLabel | src/App.tsx:41-46 | the label substitution prints the looked-up label, or `undefined` when the lookup failed |
| Prompt.ShowTarget | src/App.tsx:42-47 | the target substitution prints `undefined` when the lookup failed, and otherwise decimal digits that read back as the target |
| Prompt.RenderedSelection | src/App.tsx:41-47 | `undefined` appears in place of the label, or of the target, exactly when that identifier is missing from its table (both directions) |
| Prompt.Compose | src/App.tsx:44-57 | the template contains the label, the target and the outline, and reading it back recovers all three whenever the label has no line break and the target no space |
| Prompt.ComposeLayout | src/App.tsx:44-57 | the prompt starts with the fixed opening, ends with the fixed requirements, and holds label, target and outline at fixed offsets |
| Prompt.BuildPrompt | src/App.tsx:41-57 | the prompt contains the outline verbatim, the listed genre's label, the decimal target of the listed length, and `undefined` when a lookup fails |
| Prompt.ParseBuildPrompt | src/App.tsx:41-57 | every prompt the component builds reads back into the outline, the rendered label and the rendered target; for listed identifiers these are the table's label and the digits of its word count |
| Prompt.BuildPromptInjective | src/App.tsx:44-57 | for a fixed selection, different outlines give different prompts |
| Session.Init | src/App.tsx:22-27 | the mounted state is idle, with an empty outline, no result and no error, and selections that resolve in the tables |
| Session.InitialState | src/App.tsx:22-27 | the component mounts with an empty outline, `scifi`, `short`, idle, no result and no error, and both lookups resolve (to `科幻题材` and 5000) |
| Session.AfterClick | src/App.tsx:30-37 | a blank outline only sets the validation message; any other outline clears error and result and sets generating, keeping the form; generation starts exactly when the outline is not blank |
| Session.Start | src/App.tsx:29-66 | a blank outline opens no stream; any other outline requests the built prompt with the fixed system instruction, alongside the state change above |
| Session.OnChunk | src/App.tsx:69-71 | a chunk appends its text to the result and changes nothing else; an absent or empty text leaves the state as it was |
| Session.ErrorText | src/App.tsx:75 | the shown error is never empty: it is the failure's message when that is non-empty, and `生成过程中发生错误，请重试。` when the message is missing or empty |
| Session.Settle | src/App.tsx:76-78 | `finally` ends generation and changes nothing else |
| Session.OnFailure | src/App.tsx:73-78 | a failure shows a non-empty error, keeps the partial result and the form, and ends generation |
| Session.Consume | src/App.tsx:68-72 | consuming the chunks appends the concatenation of their texts, in arrival order, and changes nothing else |
| Session.ConsumeStream | src/App.tsx:68-72 | the loop over chunks, written with a running result, leaves the result extended by the concatenated texts, every other cell unchanged, and agrees with `Consume` |
| Session.Generate | src/App.tsx:29-79 | a click with a blank outline only sets the validation error; any other click ends idle, with the concatenated chunk texts as result, no error after completion and the failure's text after a failure, and the form unchanged |
| Session.FormEditsTouchOnlyForm | src/App.tsx:102-146 | editing the outline or choosing a genre or length sets that field alone; result, error and phase are untouched |
| Session.StreamEventsKeepForm | src/App.tsx:68-78 | chunk, failure and completion events never change the form fields |
| Session.Admissible | src/App.tsx:117-171 | only identifiers offered by the buttons can be chosen, so a chosen genre or length always resolves |
| Session.Step | src/App.tsx:29-171 | every admissible event keeps both selections inside the tables and keeps the error empty while generating |
| Session.Run | src/App.tsx:22-171 | every admissible sequence of events preserves that invariant |
| Session.SelectionsAlwaysResolve | src/App.tsx:41-42 | from the initial state, whatever admissible events occur, both lookups resolve |
| Session.RunArrivals | src/App.tsx:68-78 | while generating, a stream's chunk events followed by its terminal event are admissible and reach the state of the loop over the chunks followed by that terminal event |
| Session.EventsMatchGenerate | src/App.tsx:29-79 | an accepted click, its chunks and its ending, run as separate events, are admissible and end in the state `Generate` computes |
| Scenarios.ChunksConcatenate | src/App.tsx:68-72 | `["A","B","C"]` gives `"ABC"`; `["A","","C"]` and `["A",absent,"C"]` give `"AC"` |
| Scenarios.ShowTwentyThousand | src/App.tsx:47 | the medium target renders as `20000` |
| Scenarios.FailureKeepsPartialOutput | src/App.tsx:73-78 | a stream failing without a message after `"Once "` and `"upon"` leaves `"Once upon"`, the fallback message and an idle form |
| Scenarios.ScienceFictionMediumRequest | src/App.tsx:41-57 | the science-fiction, medium-length example is accepted and its prompt contains `科幻题材`, `20000` and the outline |
| Scenarios.ScienceFictionMediumCompletes | src/App.tsx:29-79 | that example, completed with non-empty text, ends idle, without error, showing that text |

## Left out

- Session.Start: requires the form to be idle. The handler has no re-entrance guard of its own; a second start is prevented only by the disabled button (src/App.tsx:171), so the model does not describe a start while generating.
- Session.Generate: requires the form to be idle, for the same reason as `Start`.
- The provider client, its API key from the environment, the model name and the `temperature` setting (src/App.tsx:40, 59-66): foreign network calls; the stream they produce is a parameter.
- `console.error` (src/App.tsx:74): diagnostic output only.
- The JSX, styling, icons and Markdown rendering (src/App.tsx:81-216): pure rendering of the state; the disabled button and the table-driven buttons appear only as the admissibility of events.
- Asynchronous interleaving: events are a sequential list, one per event-loop turn; React's batching of the three setters in one turn gives the same state as applying them in order.
- Stale streams from an earlier click: the code tags no stream with a session id, and with the button disabled no second stream exists in this model.
- Failure values that are not objects with an optional string `message` (for example `throw undefined`, where reading `message` throws again): the failure's message is modelled as an optional string.
- Number rendering covers non-negative integers only, which is every value in the length table.
- The whitespace set is ECMAScript's WhiteSpace and LineTerminator code points with the space separators fixed to the current Unicode Zs category.
