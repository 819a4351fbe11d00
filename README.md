# MQL5 Expert Advisor generator — a Dafny model

The application is a single-page tool. The user describes a trading strategy in a
form: a free-text description, a symbol, a timeframe, a lot size, stop-loss and
take-profit distances, and a trailing-stop switch. A quick-template selector can
fill in the description. On submit, the tool builds a prompt and asks a Gemini
model for MQL5 source code. It then shows one of four panels: the error, a
spinner, a placeholder, or the code with its markdown fences removed and keyword
highlighting applied.

This project models that core:

- `types.dfy` (module `Types`): the timeframe enumeration with its MQL5 `PERIOD_*` values, and the strategy parameter record.
- `strategy_form.dfy` (module `StrategyForm`): the template table and its lookup, field updates driven by change events, the submit-disabled predicate, and a class `FormState` whose methods are the form's event handlers.
- `gemini_service.dfy` (module `GeminiService`): the prompt text, the request configuration, the missing-key check, and how an SDK outcome maps to a result or error.
- `app.dfy` (module `App`): a class `AppState` holding `code`, `isGenerating` and `error`, with the submit handler as a method.
- `code_fences.dfy` (module `CodeFences`): the two fence-stripping global replaces, as scanners that follow JavaScript's multiline `^`/`$` semantics.
- `syntax_highlight.dfy` (module `SyntaxHighlight`): HTML escaping and the four tagging passes (strings, comments, C-like keywords, MQL5 keywords).
- `code_viewer.dfy` (module `CodeViewer`): which panel the viewer renders.
- `strings.dfy` (module `Strings`): the prefix test shared by the fence stripper, the highlighter and the prompt.
- `wrappers.dfy` (module `Wrappers`): `Option` and `Result`.

The following are parameters of the model:

- The model call is a function `respond: Request -> CallOutcome`. An outcome either returns optional text or throws.
- The environment's API key is an `Option<string>`.
- JavaScript's number-to-text conversion, used inside the prompt, is a function `fmt: real -> string`.
- `Number(value)` in the form is a function `toNumber: string -> real`.

### Behaviour of the code worth knowing

The code does the following, and the model proves it. A reader might expect otherwise.

- Fence stripping removes a fence only at the start of a line, and only as a prefix of that line. For example, `` ```cpp `` becomes `pp` (`CodeFences.LanguageTagPrefixOnly`).
- A fence line becomes an empty line rather than disappearing. A reply fenced as `` ```mql5 ``, a body, and a closing fence cleans to a newline, the body, and a newline (`CodeFences.FencedReply`).
- Cleaning is not idempotent (`CodeFences.CleanNotIdempotent`). One pass of the first replace removes only one fence from a line that starts with two.
- Keywords are tagged wherever they stand as whole words, including inside string literals. The passes run one after another on the already-tagged text, so the keyword pass also tags the word `class` in the markup of a string span. For example, a quoted `return` comes out as a string span whose `class` and `return` are both wrapped in keyword spans (`SyntaxHighlight.KeywordInsideString`).
- Highlighting keeps the code's lines. The markup holds exactly the code's line terminators, in order (`SyntaxHighlight.Highlight`).
- Escaping followed by unescaping gives back the input (`SyntaxHighlight.UnescapeEscape`). The highlighted markup equals the escaped text exactly when nothing would be tagged (`SyntaxHighlight.HighlightIsEscapeExactly`).

## Model

| member | source | states |
|---|---|---|
| Types.PeriodString | types.ts:1-9 | every timeframe's value is `PERIOD_` followed by the member's name |
| Types.ParseTimeframe | types.ts:1-9 | a text parses to a timeframe exactly when it is that timeframe's value; otherwise no timeframe has it as value |
| Types.ParsePeriodString | types.ts:1-9 | parsing a timeframe's value gives back that timeframe (round trip) |
| Types.PeriodStringInjective | types.ts:1-9 | two timeframes have the same value iff they are the same member |
| Types.TimeframeClosed | types.ts:1-9 | there are exactly seven distinct timeframes and every timeframe is one of them (the options the select renders) |
| StrategyForm.FindIn | components/StrategyForm.tsx:76 | finding by value gives nothing iff no entry has that value; otherwise it gives the first entry with that value |
| StrategyForm.TemplatesWellFormed | components/StrategyForm.tsx:10-31 | four templates with distinct values; a template's content is empty iff its value is `custom` |
| StrategyForm.FindTemplateCases | components/StrategyForm.tsx:10-31 | each of the four values finds its own template; every other value finds none |
| StrategyForm.ApplyTemplate | components/StrategyForm.tsx:76-82 | choosing a template changes no field but the description |
| StrategyForm.ApplyTemplateCases | components/StrategyForm.tsx:76-82 | `crt`, `rsi` and `ma` set the description to that template's content; `custom` and unknown values leave the parameters unchanged |
| StrategyForm.ApplyTemplateIdempotent | components/StrategyForm.tsx:72-83 | choosing the same template twice is the same as choosing it once |
| StrategyForm.EventValue | components/StrategyForm.tsx:59-69 | a checkbox event yields exactly its checked flag, a number input exactly `Number` of its text, every other input its raw text |
| StrategyForm.RenderedEventsFit | components/StrategyForm.tsx:125-216 | every event the rendered inputs can emit yields a value of its field's type |
| StrategyForm.Get | types.ts:11-19 | a field's value is always of that field's type |
| StrategyForm.Set | components/StrategyForm.tsx:63-68 | after updating one field, that field reads back the new value and every other field is unchanged |
| StrategyForm.FieldsDetermineParams | types.ts:11-19 | two parameter records that agree on every field are equal |
| StrategyForm.SetOwnValue | components/StrategyForm.tsx:63-68 | writing a field's own value back changes nothing |
| StrategyForm.SetTwice | components/StrategyForm.tsx:63-68 | the second of two updates to one field wins |
| StrategyForm.SetCommutes | components/StrategyForm.tsx:63-68 | updates to two different fields commute |
| StrategyForm.SubmitIgnoresOtherFields | components/StrategyForm.tsx:228 | editing any field other than the description leaves the button disabled or enabled as it was |
| StrategyForm.SubmitFollowsDescription | components/StrategyForm.tsx:228 | after the description is set to a text, the button is disabled iff a request is in flight or the text is empty |
| StrategyForm.InitialFormDisabled | components/StrategyForm.tsx:37-47 | with the initial parameters (empty description) the submit button is disabled |
| StrategyForm.ContentTemplateEnablesSubmit | components/StrategyForm.tsx:76-82 | after choosing a content template, submit is enabled when not generating and disabled while generating |
| StrategyForm.FormState.constructor | components/StrategyForm.tsx:37-47 | the form starts with the EURUSD/H1/0.1/100/200/no-trailing defaults, an empty description and template `custom` |
| StrategyForm.FormState.HandleSubmit | components/StrategyForm.tsx:49-52 | submitting hands over exactly the current parameters, field for field |
| StrategyForm.FormState.HandleChange | components/StrategyForm.tsx:54-70 | a change event updates the named field to the event's value and nothing else; the selected template stays |
| StrategyForm.FormState.HandleTemplateChange | components/StrategyForm.tsx:72-83 | the selector records the chosen value, and the parameters become the template applied to the old ones |
| StrategyForm.FormState.EditDescription | components/StrategyForm.tsx:129-132 | typing in the description sets it to the typed text, leaves every other field, and resets the template to `custom` |
| GeminiService.SymbolLabel | services/geminiService.ts:34 | an empty symbol is shown as `Current Symbol`, any other symbol verbatim |
| GeminiService.TrailingLabel | services/geminiService.ts:39 | the trailing-stop line says `Yes` iff trailing is on and `No` iff it is off |
| GeminiService.Prompt | services/geminiService.ts:31-46 | the prompt starts with the request sentence and the symbol line, and ends with the logic label, the description and the closing instructions |
| GeminiService.PromptMentionsEveryField | services/geminiService.ts:34-39 | the prompt contains the symbol, timeframe, lot, stop-loss, take-profit and trailing lines, each built from the parameter |
| GeminiService.DescriptionVerbatim | services/geminiService.ts:41-46 | the description appears unaltered, right after the logic label and right before the closing instructions |
| GeminiService.BuildRequest | services/geminiService.ts:49-57 | the request names model `gemini-3-pro-preview`, a thinking budget of 4096, the expert-developer instruction and the prompt as contents |
| GeminiService.MapOutcome | services/geminiService.ts:48-64 | a returned call succeeds and a thrown one fails; non-empty text passes through; missing or empty text becomes the no-code comment; a failure carries the retry message; a success is never empty |
| GeminiService.GenerateExpertAdvisor | services/geminiService.ts:24-65 | a request is sent iff the key is present and non-empty; without one the result is the missing-key error; with one, the request is the built request and the result is the mapped outcome |
| GeminiService.GenerationResults | services/geminiService.ts:24-65 | a success is non-empty, and a failure's message is either the missing-key or the retry message |
| App.ErrorText | App.tsx:22 | the shown error is never empty: the error's message if it has one, else the generic fallback |
| App.CodeAfter | App.tsx:16-20 | the code is set iff the service succeeded, and then to exactly the returned text |
| App.ErrorAfter | App.tsx:15-22 | an error is set iff the service failed; it is never empty, and it is the error's own message when that is non-empty |
| App.SettledPanel | App.tsx:18-25 | after a settled submission exactly one of code and error is set; success shows the code panel, failure the error panel with its text |
| App.FallbackNeverShown | App.tsx:21-22 | every error the service raises carries a message, so the error shown is the missing-key or the retry message, never the fallback |
| App.AppState.Valid | App.tsx:9-25 | the invariant every handler keeps: code and error are never both set, and both are clear while generating; under it a request in flight shows the spinner, and a shown error comes with no code |
| App.AppState.constructor | App.tsx:9-11 | the app starts with no code, no error and not generating |
| App.AppState.StartSubmission | App.tsx:14-16 | starting a submission sets generating and clears code and error |
| App.AppState.Succeed | App.tsx:19-24 | from a valid state with a request in flight, success stores the generated code, leaves the error as it was and stops generating; the invariant holds after |
| App.AppState.Fail | App.tsx:21-24 | from a valid state with a request in flight, failure stores the error text, leaves the code as it was and stops generating; the invariant holds after |
| App.AppState.HandleStrategySubmit | App.tsx:13-26 | after the handler, code and error are exactly those the service result determines, and generating is off |
| App.RetryAfterFailure | App.tsx:13-26 | a failed submission without a key followed by a submission with a key leaves the returned code shown and the old error cleared |
| CodeFences.CleanCode | components/CodeViewer.tsx:18-20 | missing or empty code cleans to the empty text; any other code is cleaned by the two replaces |
| CodeFences.StripOpeningFences | components/CodeViewer.tsx:19 | the tagged/bare fence replace never lengthens the text |
| CodeFences.StripBareFences | components/CodeViewer.tsx:19 | the whole-line fence replace never lengthens the text |
| CodeFences.Clean | components/CodeViewer.tsx:19 | the two replaces never lengthen the text and keep every line terminator, in order: they never join or drop lines |
| CodeFences.CleanLine | components/CodeViewer.tsx:19 | on one line, cleaning only removes a prefix, and a line not starting with a fence is unchanged |
| CodeFences.OpeningSplitsAtTerminator | components/CodeViewer.tsx:19 | the tagged/bare fence replace acts on the first line independently of the rest of the text |
| CodeFences.BareSplitsAtTerminator | components/CodeViewer.tsx:19 | the whole-line fence replace acts on the first line independently of the rest of the text |
| CodeFences.CleanSplitsAtTerminator | components/CodeViewer.tsx:19 | cleaning a line, a terminator and a rest cleans the line and the rest separately, keeping the terminator |
| CodeFences.CleanIsLineWise | components/CodeViewer.tsx:19 | the two global replaces equal cleaning each line on its own (reference definition) |
| CodeFences.CleanWithoutFence | components/CodeViewer.tsx:17-20 | text in which no line starts with a fence is unchanged |
| CodeFences.FencedReply | components/CodeViewer.tsx:17-20 | a reply fenced with `mql5` around a fence-free body cleans to the body between two newlines |
| CodeFences.OnTickReply | components/CodeViewer.tsx:17-20 | the fenced one-line handler reply cleans to that line between two newlines |
| CodeFences.LanguageTagPrefixOnly | components/CodeViewer.tsx:19 | a `cpp`-tagged fence loses only its first four characters (the `c` alternative matches) |
| CodeFences.DoubleFence | components/CodeViewer.tsx:19 | a line of two bare fences cleans to an empty line |
| CodeFences.DoubleFenceWithTag | components/CodeViewer.tsx:19 | a double fence with a tag keeps the second, tagged fence |
| CodeFences.TaggedFenceLine | components/CodeViewer.tsx:19 | a lone tagged fence line cleans to an empty line |
| CodeFences.CleanNotIdempotent | components/CodeViewer.tsx:19 | cleaning twice can differ from cleaning once |
| SyntaxHighlight.Escape | components/CodeViewer.tsx:119-122 | escaped text contains no angle bracket |
| SyntaxHighlight.EscapeIsCharwise | components/CodeViewer.tsx:119-122 | the three replaces in sequence equal escaping each character on its own |
| SyntaxHighlight.UnescapeEscape | components/CodeViewer.tsx:119-122 | unescaping the escaped text gives back the original (round trip) |
| SyntaxHighlight.EscapedAmpersands | components/CodeViewer.tsx:119-122 | every ampersand in escaped text starts one of the three entities |
| SyntaxHighlight.TagStrings | components/CodeViewer.tsx:131-134 | the string pass adds one span per pair of double quotes: the text grows by one span's markup for every two quotes |
| SyntaxHighlight.TagStringsChanges | components/CodeViewer.tsx:131-134 | the string pass changes the text iff it has at least two double quotes |
| SyntaxHighlight.TagComments | components/CodeViewer.tsx:129-135 | the comment pass never shortens the text and keeps its line terminators: a comment span stops at the end of its line |
| SyntaxHighlight.TagCommentsChanges | components/CodeViewer.tsx:129-135 | the comment pass changes the text iff it contains two adjacent slashes, and a change lengthens it |
| SyntaxHighlight.MatchAlternative | components/CodeViewer.tsx:125 | an alternative found is a listed word that starts the text and is followed by a word boundary; when none is found, no listed word at the start is followed by one |
| SyntaxHighlight.MatchIsWholeWord | components/CodeViewer.tsx:125-127 | the in-order alternation with word boundaries matches exactly when the maximal word run at that point is a listed word |
| SyntaxHighlight.TagWords | components/CodeViewer.tsx:124-137 | a keyword pass never shortens the text and, as its opening tag holds no line terminator, keeps the line terminators |
| SyntaxHighlight.TagWordsChanges | components/CodeViewer.tsx:136-137 | a keyword pass changes the text iff a listed word stands there as a whole word, and a change lengthens it |
| SyntaxHighlight.KeywordListsValid | components/CodeViewer.tsx:125-127 | both keyword lists hold only non-empty identifier words, and none is an entity name |
| SyntaxHighlight.EscapeKeepsQuotes | components/CodeViewer.tsx:119-122 | escaping keeps the number of double quotes |
| SyntaxHighlight.EscapeKeepsSlashPairs | components/CodeViewer.tsx:119-122 | escaping neither creates nor removes a pair of adjacent slashes |
| SyntaxHighlight.EscapeKeepsWholeWords | components/CodeViewer.tsx:119-127 | escaping neither creates nor removes a whole listed word |
| SyntaxHighlight.HighlightIsEscapeExactly | components/CodeViewer.tsx:117-138 | the highlighted markup equals the escaped code iff the code has fewer than two quotes, no double slash and no whole keyword of either list |
| SyntaxHighlight.Highlight | components/CodeViewer.tsx:117-138 | the markup holds exactly the code's line terminators, in order |
| SyntaxHighlight.KeywordInsideString | components/CodeViewer.tsx:133-137 | a quoted `return` becomes a string span in which both `return` and the `class` of the span's own tag are wrapped in keyword spans |
| SyntaxHighlight.UnlistedWordUntagged | components/CodeViewer.tsx:125-138 | an identifier in neither list is shown as itself |
| SyntaxHighlight.IntegerUntagged | components/CodeViewer.tsx:125 | a word that merely starts with a keyword is not tagged |
| SyntaxHighlight.OnTickXUntagged | components/CodeViewer.tsx:127 | an identifier that extends an MQL5 keyword is not tagged |
| CodeViewer.ChoosePanel | components/CodeViewer.tsx:42-113 | an error panel iff the error is non-empty; else a spinner iff generating; else a placeholder iff there is no code; else the code panel with the cleaned code and its highlighting |
| CodeViewer.ErrorWinsOverSpinner | components/CodeViewer.tsx:42-65 | a non-empty error is shown even while generating |
| CodeViewer.PlainCodeShownEscaped | components/CodeViewer.tsx:117-138 | code with nothing to tag is shown so that its markup unescapes to the cleaned code |

## Left out

- The model call is not made. The SDK and the network are a parameter `respond`, and the API key in the environment is a parameter too.
- The system instruction is byte-exact in `GeminiService.SystemInstruction`. The request holds it as the marker `ExpertAdvisorDeveloper`, and `InstructionText` gives the text.
- Asynchronous scheduling is not modelled. The model does not cover React's state batching, or a response arriving after a newer submission started. `HandleStrategySubmit` runs to completion in one step.
- Browser effects are left out: the clipboard copy, the copied flag and its timer, the download link, rendering, icons and markup injection. These are I/O and carry no logic beyond "only when there is clean code".
- `console.error` in the service's catch block is logging only.
- JavaScript number-to-text and `Number()` are opaque parameters. Numbers are `real`, so NaN, infinities and floating-point rounding are not modelled.
- Strings are sequences of Dafny characters, not UTF-16 code units. Surrogate pairs are not modelled.
- The `GeneratedCode` interface in types.ts is declared but used nowhere, so it is not modelled.
- The browser's `required` check on the description and implicit form submission are not modelled. Only the button's disabled predicate is.
- `StrategyForm.FormState.HandleChange`: the field name of an event is one of the seven fields (`Rendered`), because only rendered inputs emit events. An event naming an unknown property is not modelled.
- `CodeFences.CleanCode`: a JavaScript regex works on UTF-16 and recognises exactly four line terminators for `^`/`$`. The model uses the same four and does not model the UTF-16 encoding.
- `GeminiService.GenerationResults`: the SDK client is constructed at services/geminiService.ts:29, outside the `try` block. The model assumes that construction never throws. If it did, the caller would see the SDK's own error rather than the retry message.
- `App.FallbackNeverShown`: rests on the same assumption. An error thrown while constructing the client would reach the app with whatever message the SDK gives it.
