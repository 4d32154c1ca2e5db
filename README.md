# Burmese content generator (`App` component), modelled in Dafny

The application is a single React component. The user first enters a
Google Gemini API key. The component keeps that key in the tab's session
storage. It then shows a form with a topic, a tone, details and a length.
From the form it builds a Burmese-language prompt, sends the prompt to the
text-generation service, and shows either the returned text or an error
message in its output area.

The model treats the component as one state record: class `Component.App`.
Each event handler is a method that updates the record's fields one after
another, as the handler's setters do.
- `Text` models the two JavaScript string built-ins the handlers use:
  `trim` and `includes`.
- `Prompt` holds the prompt builder. `BuildPrompt` appends to a local
  string the way `generateContent` does. It is proved equal to
  `PromptText`, a fold of one clause per filled field over the fixed field
  order.
- `Messages` holds the fixed messages and the failure-message composer.
  `ComposeErrorMessage` is proved against `ErrorMessage`, and
  `FailureDetail` reads the raw detail back out of a composed message.
- `Component` holds the component state, its handlers, and the service's
  answer as an abstract `Outcome`: `Success(text)` or `Failure(message)`.
  The handler `generateContent` is split in two around its `await`.
  `StartGenerate` validates the form, enters the loading state and returns
  the request to send (`None` when nothing is sent). `CompleteGenerate`
  takes the service's outcome and settles the output area. The loading
  state between the two calls can therefore be observed.
  `Component.App.Valid` is an invariant kept by every handler: the accepted
  key equals the key in session storage, read as `""` when absent.

The session-storage key is `'geminiApiKey'`. Going back to the key screen
leaves the form fields and the error flag as they were.

## Model

| member | source | states |
|---|---|---|
| `Text.LeadingSpace` | app.js:43 | the count of leading characters removed by `trim`: all of them are white space, and the next one is not |
| `Text.TrailingSpace` | app.js:43 | the count of trailing characters removed by `trim`: all of them are white space, and the one before them is not |
| `Text.Trim` | app.js:43-45 | `s.trim()` (also used at app.js:64 and 75-79) is no longer than `s`; its full characterisation is `TrimIsSlice`, `TrimHasNoOuterSpace` and `TrimEmptyIffBlank` |
| `Text.TrimIsSlice` | app.js:64 | `trim` keeps one contiguous run of the input and removes only white space on either side of it |
| `Text.TrimHasNoOuterSpace` | app.js:75-79 | a non-empty trimmed value neither starts nor ends with white space |
| `Text.TrimEmptyIffBlank` | app.js:64 | `s.trim()` is empty exactly when every character of `s` is white space (both directions) |
| `Text.TrimIdempotent` | app.js:44-45 | trimming a trimmed key changes nothing |
| `Text.IncludesIffOccurs` | app.js:113 | the left-to-right `includes` scan is true exactly when the marker occurs at some index (both directions) |
| `Text.Includes` | app.js:113 | `s.includes(needle)`: true only when the needle fits in `s`, always true for the empty needle; `IncludesIffOccurs` characterises it fully |
| `Prompt.BuildPrompt` | app.js:74-87 | the prompt built by appending the preamble, the topic, details, tone and length clauses (each only if its value is non-empty) and the closing equals `PromptText` of the form |
| `Prompt.SelectedIff` | app.js:75-86 | a field of any field order gets a clause exactly when its value is non-empty |
| `Prompt.ClauseIffFilled` | app.js:75-86 | a topic clause iff the trimmed topic is non-empty, and a details clause iff the trimmed details are non-empty; a tone clause iff the tone is non-empty, and a length clause iff the length is non-empty, neither trimmed |
| `Prompt.SelectedInOrder` | app.js:75-86 | keeping only the filled fields preserves their order and adds no field |
| `Prompt.ClausesInFieldOrder` | app.js:75-86 | clauses appear only in the order topic, details, tone, length, each at most once |
| `Prompt.ClauseAppended` | app.js:75-86 | the clause of every appended field occurs in the accumulated text |
| `Prompt.AppendedExtends` | app.js:74-86 | appending clauses keeps the text accumulated so far as a prefix |
| `Prompt.ClauseInPrompt` | app.js:75-86 | each included field's clause occurs in the prompt: label, value in quotes (trimmed for topic and details), line break |
| `Prompt.PromptFramed` | app.js:74-87 | the prompt begins with the fixed preamble and ends with the fixed closing |
| `Prompt.SameValuesSameSelection` | app.js:75-86 | forms with equal field values select the same fields |
| `Prompt.SameValuesSameClauses` | app.js:75-86 | forms with equal field values append the same clauses |
| `Prompt.PromptDependsOnlyOnValues` | app.js:75-86 | the prompt depends on the form only through the field values |
| `Prompt.PromptClosedForm` | app.js:74-87 | the prompt is exactly the preamble, then the topic, details, tone and length clauses, each present when its value is non-empty and otherwise contributing nothing (no label, quote or line break), then the closing |
| `Prompt.BlankFieldsLeaveNoTrace` | app.js:75-80 | a topic and details made only of white space give the same prompt as empty ones |
| `Prompt.ValidatedFormHasLeadingClause` | app.js:64-87 | a form that passes validation gets at least one clause, and the first is the topic's or the details' |
| `Prompt.TopicOnlyPrompt` | app.js:74-87 | with only a topic, the prompt is exactly preamble, topic clause and closing |
| `Messages.ComposeErrorMessage` | app.js:112-117 | the composed message is the generic prefix plus the credential hint if the failure message contains `API key not valid`, and otherwise `"\n\n<details label>: "` plus the raw message |
| `Messages.ErrorMessageStartsWithPrefix` | app.js:112 | every failure message starts with the generic prefix |
| `Messages.DetailRoundTrip` | app.js:115-116 | a failure without the marker shows its own message unchanged, and reading it back gives that message |
| `Messages.DetailMessagesDistinct` | app.js:115-116 | distinct failures without the marker give distinct displayed messages |
| `Messages.HintCarriesNoDetail` | app.js:113-116 | the prefix-plus-hint message carries no raw-detail section |
| `Messages.InvalidKeyMessage` | app.js:113-114 | a failure containing the marker shows exactly prefix plus hint, containing both, with no raw detail |
| `Component.App.IsApiKeyScreen` | app.js:22 | the key-entry screen shows exactly when no key is accepted; under the invariant, exactly when session storage holds no non-empty key |
| `Component.App.OutputOnScreen` | app.js:237-244 | the output container is on screen only on the input screen, the branch chosen at app.js:165 (an accepted, hence stored, key), and only while `outputHidden` is false |
| `Component.App.OutputOnScreenCorrected` | app.js:237-244 | with the container rendered below either screen, it is on screen whenever the as-written one is, and on the input screen exactly when the as-written one is |
| `Component.App.Mount` | app.js:8-32 | initial state (empty fields, output hidden, not loading); a non-empty stored key goes into both key fields, and then the input screen shows |
| `Component.App.TypeApiKey` | app.js:174 | typing sets only the typed key |
| `Component.App.EditField` | app.js:192-221 | editing sets only the chosen form field |
| `Component.App.DisplayOutput` | app.js:36-40 | sets the text and the error flag together and makes the output visible; nothing else changes |
| `Component.App.SaveApiKey` | app.js:42-49 | a non-blank key is accepted and stored trimmed, which leaves the key screen; a blank key shows the enter-key error and leaves the keys and the store unchanged |
| `Component.App.GoBackToApiKeyScreen` | app.js:51-57 | removes the stored key, empties both key fields, hides and clears the output, and returns to the key screen; the form fields and the error flag are untouched |
| `Component.App.StartGenerate` | app.js:63-95 | blank topic and details give the validation error first; otherwise a missing key gives the missing-key error; both send nothing and keep `isLoading`; otherwise loading starts with the output hidden, empty and not an error, and the request carries `PromptText`, the key and `gemini-pro` |
| `Component.App.CompleteGenerate` | app.js:96-121 | the output becomes visible: a non-empty text with the error flag false, an empty text as the no-result error, or a failure as `ErrorMessage` with the error flag true; `isLoading` is false whatever the outcome |
| `Component.App.SaveApiKeyCorrected` | app.js:42-49 | corrected save: a blank key's error is on screen at key entry, and accepting a key hides and clears the output |
| `Component.StaleKeyError` | app.js:42-48 | as written, a blank key's error is not on screen at key entry but appears after a valid key is saved |
| `Component.KeyErrorCorrected` | app.js:42-48 | corrected, the same steps show the error at key entry and nothing after the key is accepted |

## Findings

| source | as written | input that shows it | evidently intended | confidence | as-written member | corrected member |
|---|---|---|---|---|---|---|
| app.js:42-48 | on a blank key, `saveApiKey` calls `displayOutput` with the enter-key error. The output container is rendered only inside the input-screen branch (app.js:165, 237), so the message is not on screen. Saving a valid key later switches screens but leaves `outputHidden` false, so the stale error then appears on the input screen | mount with an empty store, save `""`, then save `"k"` | the error appears where the key is entered, and no stale error is carried over once a key is accepted | high (not executed) | `Component.StaleKeyError` (over `Component.App.SaveApiKey`, `Component.App.OutputOnScreen`) | `Component.KeyErrorCorrected` (over `Component.App.SaveApiKeyCorrected`, `Component.App.OutputOnScreenCorrected`) |

## Left out

- The gemini SDK import, client construction and `await` chain (app.js:4, 97-102): these are foreign asynchronous calls, replaced by the `Outcome` parameter of `CompleteGenerate`. A response whose `text()` throws is a `Failure`.
- `Component.App.CompleteGenerate`: a thrown value without a string `message` is not modelled. In the source, `error.message.includes` would throw inside `catch`; `finally` would still clear `isLoading`, but the output would not be set.
- Clipboard copy (app.js:124-138): uses `navigator.clipboard`, direct DOM updates, `setTimeout` and `alert`.
- `refreshPage` (app.js:59-61): a browser reload, outside the component's state.
- `console.log` and `console.error` (app.js:89, 111): output with no effect on state.
- The JSX and the commented-out CSS (app.js:140-260, 265-493): presentation only. Only which screen shows (`isApiKeyScreen`) and where the output container sits (`OutputOnScreen`) are modelled. The submit button's `disabled={isLoading}` is not modelled, so `StartGenerate` has no precondition on `isLoading`.
- React's scheduling and batching of state updates: handlers are sequential updates to one record. None of them reads a field it has already set.
- Stale or overlapping in-flight responses are not modelled: one request at a time. The source does not guard against them.
- `Text.IsSpace` lists the code points of ECMAScript's WhiteSpace and LineTerminator productions. Which characters Unicode puts in the space-separator category depends on the Unicode version; the lemmas about `Trim` hold for any such set.
- `Messages.InvalidKeyHint` is written as its two sentences joined, so the verifier can index into it. The value is the same as the source literal.
- JavaScript strings are sequences of UTF-16 code units; a Dafny `string` is a sequence of Unicode scalar values, so a lone surrogate cannot be represented. Nothing modelled depends on this: every white-space code point `trim` removes lies in the Basic Multilingual Plane and the invalid-key marker is ASCII.
