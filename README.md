# Scilympiad Question Automater, modelled in Dafny

The extension has three parts:

- The popup (`popup.js`) sends a Science Olympiad test to a generative model. The test can be a PDF and/or pasted text, plus an optional answer key. The popup stores the question list that comes back.
- The preview page (`preview.js`) shows that list as an editable table. It saves the edited rows back and resets the automation's loop state.
- A content script (`content.js`) runs on the Scilympiad question editor. On every page load it reads the list and the loop state from local storage. It then either resumes at the stored index, offers a "Start Upload" button, or does nothing. For one question it sends signals to a bridge script in the page's own context (`summernote_bridge.js`): change the question type, scan the editors, and inject text into editor `i`. Then it clicks the correct-answer control and the save button.

This project models the logic of those four scripts:

| module (file) | what it models |
|---|---|
| `Seqs` (seqs.dfy) | `Array.prototype.filter`, `findIndex`/`find` and `some`, stated once |
| `Strings` (strings.dfy) | `trim` and regex `\s` (ECMA-262 white space and line terminators), ASCII case mapping, `includes`, `startsWith`/`endsWith`, `replace` of a first occurrence, global `replace` of a literal |
| `Store` (store.dfy) | the question record, the shapes a stored value can take, the loop state, and local storage as a class with its two keys |
| `Bridge` (bridge.dfy) | the `scilympiad-action` listener, as a class; the editors are an `array<string>` updated in place |
| `Automator` (automator.dfy) | `cleanText`, answer resolution and the click guard, the DOM lookups reduced to their results, the editor poll, and the ordered signals of `processQuestion` |
| `Resume` (resume.dfy) | the bootstrap's loop-state machine, over the `LocalStore` class |
| `Preview` (preview.dfy) | the unwrapping done by `loadData`, what `createRow` preselects, and the row-to-question serialisation of `saveDataAndLaunch` with its round trip |
| `Popup` (popup.dfy) | the validation chain, the request parts, the reply checks, fence stripping, and the model-list refresh with its default selection, as a class for the status line and the model select |

Things the model takes as parameters:

- **Network replies.** The reply to a request is the function `respond`, and the model-list fetch is a `ModelsResponse` value.
- **`JSON.parse`.** It is the function `parse`.
- **Files.** A file read as base64 arrives as an `Upload`.
- **`execCommand('insertHTML')`.** Its success is the boolean `inserted`.
- **The editor counts seen by the poll.** They are the function `observed`.
- **The page `processQuestion` meets.** The results of its DOM lookups are an `Automator.Page` value.
- **Whether the extension context is still valid.** It is the boolean `contextValid`.
- **TypeError messages.** The message the JavaScript engine puts into a TypeError is the string `engineMessage`.

Where the code and the design description disagree, the model follows the code:

- `cleanText` is described as idempotent, but it removes one label per call. "A. B. x" cleans to "B. x" and then to "x" (`Automator.CleanTextNotIdempotent`).
- The fallback answer controls are described as the radios *before* the "Specify up to 6 answers" element. The code keeps those *after* it: `compareDocumentPosition(header) & PRECEDING` holds when the header precedes the radio.
- `content.js` matches answer text by equality of cleaned, lower-cased text. `preview.js` preselects by substring containment. Both are modelled as written.

## Model

| member | source | states |
|---|---|---|
| Strings.Trim | content.js:81 | the trimmed string has no white space at either end and is no longer than the input |
| Strings.TrimSpec | content.js:84 | trim removes white space, and only white space, from both ends and keeps the middle as a slice |
| Strings.TrimEmpty | preview.js:311 | a string trims to "" exactly when all of it is white space |
| Strings.RemoveFenceLeavesNone | popup.js:161 | deleting every "```" left to right leaves no "```", because the deletions cannot glue a new one together |
| Automator.CleanText | content.js:79-85 | null, undefined and "" give ""; any result has no white space at either end and is no longer than the input |
| Automator.CleanTextIsSlice | content.js:81-84 | the cleaned text is a contiguous piece of the input: cleaning only cuts characters off the ends |
| Automator.CleanTextFixedPoint | content.js:81-84 | a string is left unchanged exactly when it is trimmed, has no leading `[A-Za-z][.):]` label and does not end in a comma |
| Automator.CleansTo | content.js:82-83 | a trimmed string with a label, the spaces after it and then `r`, perhaps with one trailing comma, cleans to `r` |
| Automator.CleanTextDropsLabel | content.js:82 | "B) Paris" cleans to "Paris" |
| Automator.CleanTextDropsComma | content.js:83 | "C: Rome," cleans to "Rome" |
| Automator.CleanTextNotIdempotent | content.js:82 | "A. B. x" cleans to "B. x", and cleaning that again gives "x" |
| Automator.MatchIndex | content.js:130-131 | the first option whose cleaned, lower-cased text equals the answer's, or -1 exactly when no option does |
| Automator.AnswerIndexAsWritten | content.js:126-132 | as written: a letter A-F in either case gives its position; other text gives the match index, and throws exactly when the options are null |
| Automator.AnswerIndex | content.js:126-132 | the corrected resolution: letters give 0..5, other text gives the match index or -1 when there are no options; it agrees with the written one wherever that one does not throw |
| Automator.LetterIndex | content.js:127-128 | an upper-case letter and its lower-case form resolve to the same position |
| Automator.AnswerInputs | content.js:112-123 | the marked controls when there are any; otherwise, when some element's text contains "Specify up to 6 answers", exactly the radios after the first such element in document order; otherwise none. That first element is the root `<html>` element, whose text content holds all text, so in practice every radio qualifies |
| Automator.AnswerStepThrowsExactly | content.js:125-132 | the answer step throws exactly for a non-empty answer that is not a letter A-F, on a question without options, with candidates present; otherwise it is the corrected step |
| Automator.AnswerClick | content.js:125-138 | a control is clicked exactly when the answer is non-empty, there are candidates and the index lies inside them, and it is the candidate at that index |
| Automator.ShortAnswerThrows | content.js:131 | a short-answer question on a form with answer controls throws as written; the corrected step clicks nothing |
| Automator.PlainKey | content.js:130 | text with nothing for `cleanText` to remove is compared as its lower-cased self |
| Automator.AddButton | content.js:52-56 | the clicked element is the first one labelled "add question" or "add new question", unless that one is a SCRIPT element |
| Automator.ChooseTypeValue | content.js:61-70 | the value of the first Type option labelled "multiple choice" or "multiple answers", else "3" |
| Automator.SaveButton | content.js:142-147 | the first visible control whose text says save and not cancel, or whose value says save; none when no control qualifies |
| Automator.RequiredEditors | content.js:74 | 1 + the number of options, or 1 when the options are null |
| Automator.WaitForOptionsToLoad | content.js:16-25 | at most 20 checks; true at the first check seeing at least `minCount` editors, with no later checks; false after 20 failing checks |
| Automator.PollOutcomeUnique | content.js:18-24 | the poll is ready exactly when one of the 20 observations is large enough, and the number of checks is determined |
| Automator.ImageOf | content.js:90 | a question has an image exactly when its image is a non-empty string |
| Automator.ImageFragment | content.js:94 | the `<img>` fragment exists exactly when there is an image, and wraps its source |
| Automator.CleanAll | content.js:102 | option j is sent as `cleanText` of option j |
| Automator.InjectOptions | content.js:100-105 | one inject per option, in order, option j into editor j + 1 |
| Automator.ProcessQuestion | content.js:48-157 | `Processed`, for one question: the add button clicked is AddButton, the type value is the first multiple-choice option or "3", the poll waits for 1 + the number of options editors, the signals sent are the plan (one type change, the scans, then the injects), when the answer step throws (content.js:131) nothing is clicked and the save control is not reached; otherwise the answer click is the guarded click and the save click is SaveButton |
| Automator.SignalsHaveOneChangeType | content.js:71 | the first signal is the only `change-type` |
| Automator.SignalsInjects | content.js:87-105 | the injects are the text, then the image when there is one, then the options in order |
| Automator.SignalsInjectsAt | content.js:87-105 | inject i targets editor 0 for the text and image, and editor j + 1 for option j |
| Automator.PlanHasOneChangeType | content.js:61-71 | each question sends exactly one `change-type`, first, with the chosen value whatever the question's type |
| Automator.PlanInjects | content.js:87-105 | the cleaned text into editor 0, the image into editor 0 only when present, and cleaned option j into editor j + 1 |
| Automator.PlanExample | content.js:71-105 | a four-option multiple-choice question sends one type change and five injects; a question without options sends one inject |
| Resume.QuestionList | content.js:171 | a stored value has a usable length exactly when it is an array |
| Resume.CurrentState | content.js:162 | an absent loop state reads as not running at index 0 |
| Resume.ModeOf | content.js:171-200 | resume exactly when running with an index inside the list, at that question; otherwise offer to start exactly when the list is non-empty |
| Resume.Bootstrap | content.js:160-200 | one page load: the mode taken, a run exactly in resume mode that satisfies `Automator.Processed` for the stored question (its clicks, its signals, whether it threw), the question list untouched, and the index advanced by one exactly when that question did not throw |
| Resume.StopAndReset | content.js:165-166 | stop stores not running at index 0 |
| Resume.StartUpload | content.js:209-216 | start stores running at index 0 when the context is valid, and nothing otherwise |
| Resume.ClearData | content.js:234-237 | clearing removes the question list, keeps the loop state, and does nothing when the context is invalid |
| Resume.AbsentStateNeverResumes | content.js:162 | with no stored state there is no resume and nothing is written |
| Resume.AfterLoadAdvances | content.js:183-184 | a load changes the state only by index + 1, after success in resume mode; a throw changes nothing |
| Resume.AfterLoadKeepsBounds | content.js:171-184 | index <= list length is kept by every load, and the index never decreases |
| Resume.ResumesInOrder | content.js:171-198 | from index k, n successful loads process questions k .. k+n-1 in order, once each, and leave index k + n |
| Resume.FinishedRunIsIdle | content.js:171-200 | at the end of the list the start button is offered again, and further loads process nothing |
| Resume.FullRun | content.js:171-184 | starting at 0, one successful load per question processes the whole list once, in order |
| Resume.ThrowRetriesSameQuestion | content.js:195-198 | after a throw the next load resumes the same question |
| Resume.ShortAnswerStallsRun | content.js:131 | resuming at a short-answer question on a page with answer controls, the load throws, stores nothing, and the next load resumes the same question |
| Store.LocalStore.SetTestData | popup.js:164 | writes the question-list key only |
| Store.LocalStore.SetLoopState | content.js:184 | writes the loop-state key only |
| Store.LocalStore.RemoveTestData | content.js:237 | removes the question-list key only |
| Preview.Unwrap | preview.js:258-271 | absent and primitive values give [], and an array is kept as it is |
| Preview.UnwrapObject | preview.js:261-269 | an object gives its first array-valued property in key order, or [] when it has none |
| Preview.LoadData | preview.js:258-271 | the key loop with early exit computes the unwrapped list |
| Preview.InitialType | preview.js:23 | short answer exactly for "short_answer" or "free_response"; everything else is multiple choice |
| Preview.DisplayedOptions | preview.js:154 | the options, or four empty ones when they are missing or empty |
| Preview.LetterAnswerMarksPosition | preview.js:168-170 | a one-letter answer marks exactly the option at its position in the alphabet, in either case |
| Preview.TextAnswerMarksContained | preview.js:171-172 | any other answer marks exactly the non-empty options it contains |
| Preview.NoAnswerMarksNothing | preview.js:167 | a missing or empty answer marks nothing |
| Preview.RowOf | preview.js:23-175 | the row has a rubric exactly when the initial type is short answer |
| Preview.LastChecked | preview.js:314-315 | the last checked row, or none exactly when no row is checked |
| Preview.Letter | preview.js:315 | positions 0..25 give the letters A..Z |
| Preview.SavedQuestion | preview.js:292-335 | the number is the position + 1; the image is kept only when it is a data:image URL; short answers store no options and the rubric as the answer |
| Preview.SavedOptionsKept | preview.js:306-312 | the saved options are exactly the texts of the options whose trimmed text is non-empty, stored untrimmed |
| Preview.SavedOptionsInOrder | preview.js:306-312 | saved option i comes from row option idx[i], with idx increasing and covering every kept option: row order and multiplicity are kept |
| Preview.SavedAnswerIsLastChecked | preview.js:304-316 | the answer is the letter of the last checked kept option, by its position among the kept ones; it is null when no kept option is checked |
| Preview.SaveOptions | preview.js:306-318 | the option loop computes the saved options and the saved answer |
| Preview.SaveRow | preview.js:292-335 | one row's loop body computes the saved question |
| Preview.SavedQuestions | preview.js:292-336 | question i is the one saved from row i |
| Preview.SaveDataAndLaunch | preview.js:288-347 | the saved list replaces the stored one, and the loop state becomes not running at index 0 |
| Preview.ReloadedOptions | preview.js:154-175 | reloading saved options keeps every option and checks only the saved letter's option |
| Preview.ChoicesRoundTrip | preview.js:168-170 | with the answer's option among the first 26 kept, saving, reloading and saving again gives the same options and answer |
| Preview.SaveLoadRoundTrip | preview.js:292-335 | saving a row, rebuilding it from the saved question and saving again gives the same question |
| Preview.TableRoundTrip | preview.js:258-347 | the list Save & Launch stores is what the next load unwraps, and saving the rebuilt rows stores the same list |
| Bridge.TargetIndex | summernote_bridge.js:57 | a missing or non-numeric index is 0 |
| Bridge.InjectOnlyTouchesTarget | summernote_bridge.js:56-97 | only the target editor can change, and the number of editors stays the same |
| Bridge.InjectOutOfRange | summernote_bridge.js:59-111 | an index outside the editors changes nothing |
| Bridge.InjectTargetContent | summernote_bridge.js:73-97 | a successful insert appends the fragment; a failed one leaves exactly the fragment |
| Bridge.FailedInjectIdempotent | summernote_bridge.js:88-97 | a second failed inject of the same fragment changes nothing |
| Bridge.Page.ChangeType | summernote_bridge.js:40-52 | writes and raises `change` exactly when jQuery and a Type select exist and the current value differs; the new value is the request when an option has it, and nothing otherwise |
| Bridge.Page.Inject | summernote_bridge.js:55-117 | the editors become the injected contents; the fallback assigns `innerHTML` exactly when the insert failed on an existing editor holding something else |
| Bridge.Page.Handle | summernote_bridge.js:12-122 | one signal: scan and change-type leave the editors alone, and inject changes them as specified; change-type writes the select exactly as ChangeType does, and nothing else touches it |
| Popup.Validate | popup.js:84-97 | the checks in order: no key, then no model, then neither file nor text; it passes exactly when all three hold |
| Popup.PromptWith | popup.js:116-118 | the prompt starts with the instructions, and gets the heading and the pasted text exactly when the text is non-empty |
| Popup.RequestParts | popup.js:116-128 | the prompt, then the test file if present, then the answer-key file if present; the prompt carries the text exactly when it is non-empty |
| Popup.BuildParts | popup.js:102-128 | the pushes build the request parts |
| Popup.ReplyText | popup.js:152-160 | an error reply fails with its message, and a reply without candidates or content fails with "no content"; text comes only from the first part of the first candidate |
| Popup.StripFences | popup.js:161 | the stripped reply has no white space at either end |
| Popup.StripFencesLeavesNone | popup.js:161 | the stripped reply contains no "```" |
| Popup.GenModelsKept | popup.js:27 | exactly the models supporting generateContent are kept, in their order |
| Popup.ModelValueDropsPrefix | popup.js:41 | a name starting with "models/" loses exactly that prefix |
| Popup.ModelValueWithoutPrefix | popup.js:41 | a name without "models/" is its own value |
| Popup.ModelLabel | popup.js:42 | the display name when it is set and non-empty, else the name |
| Popup.ModelOptions | popup.js:36-44 | one enabled option per kept model, in order |
| Popup.AddOptions | popup.js:36-44 | the loop adds those options |
| Popup.DefaultSelectionAsWritten | popup.js:47-51 | as written: nothing is selected exactly when the list is empty, or when some name contains the Flash name but no value is exactly the Flash name |
| Popup.DefaultSelection | popup.js:47-51 | corrected: something is selected whenever the list is non-empty; the exact Flash value is preferred, then a Flash model, else the first option |
| Popup.DefaultSelectionAgrees | popup.js:47-51 | wherever the written selection picks an option, the corrected one picks the same |
| Popup.FlashVariantSelectsNothing | popup.js:47-48 | with only "models/gemini-1.5-flash-001" listed, the written default selects nothing and the corrected one selects it |
| Popup.NoSelectionFailsValidation | popup.js:78-92 | with no option selected, processing stops at "Please select a model." |
| Popup.PopupPage.SelectedValue | popup.js:78 | the select's value is "" when no option is selected |
| Popup.PopupPage.FetchModels | popup.js:2-60 | no key only sets its message; an error shows "Error fetching models: ..." with a disabled option; otherwise the kept models become options with the default selected as written (none for a Flash variant without an exact match), or "No compatible models found" |
| Popup.PopupPage.Process | popup.js:76-176 | a validation failure only sets its message; otherwise the request is sent, and the reply is either stored with the success message, or stores nothing and shows "Error: ..." |

## Left out

- DOM construction, styling, highlights, the injected buttons and the status counters are left out. They hold no logic beyond the rules above.
- Delays, timers, the 5-second reload fallback, reloads, `alert`, `window.open`/`close` and console output are left out. A reload is the next `Resume.Bootstrap` on the stored state.
- Network calls, `FileReader` and `JSON.parse` are parameters, because they are foreign code. A request that fails at the network level is left out.
- The storage error and retry of `loadData`, and the `lastError` check after the start button, are left out: they are browser I/O.
- The points of a question are left out: the points input of `content.js`, and the `points` field that `saveDataAndLaunch` copies.
- The add-row and clear-table handlers of the preview page, its paste handling and its image upload widget are left out. They are event plumbing outside the saved data.
- Strings.Lower: the case mapping covers ASCII letters only, not full Unicode `toLowerCase`/`toUpperCase`.
- Resume.QuestionList: a stored primitive, such as a string, counts as no list. The JavaScript would index a string's characters, but the popup only ever stores parsed JSON meant as a list.
- Popup.PopupPage.FetchModels: model names are taken as present strings. A model without `name` would raise a TypeError inside the loop, and that case is not modelled.
- Popup.PopupPage.FetchModels: when no model supports generation, the model keeps the code's behaviour. The status stays "Fetching models...", and the added option has its text as its value, because it has no value attribute.
- Popup.PopupPage.Process: storing a parsed reply does not touch the loop state. The automation picks the new list up only after the preview page resets the state.
- Popup.PartText: the proofs treat the fixed instruction text generically through `PromptWith`. Only `PartText` spells it out.
- Preview.RowOf: every option the answer marks keeps a checked radio. A browser radio group keeps only the last one checked. Saving reads the last checked kept option, so the two differ only when the last marked option is white space alone.
- Preview.Letter: for a position of 26 or more, `fromCharCode` is modelled modulo 2^16. A lone surrogate stands as U+FFFD, because Dafny has no `char` for it.
- Bridge.Page.ChangeType: the select is one control. With both `select#Type` and `select[name=Type]` present, jQuery would write both; that case is not modelled.
- Bridge.TargetIndex: the index is an integer or absent. A NaN or fractional index reaches no editor in the JavaScript, which matches an out-of-range index here.
- Focus, selection ranges, the synthesised input/change/blur events and the jQuery triggers of the bridge are left out. They are browser internals.

## Findings

| source | as written | input that shows it | evidently intended | confidence | as-written member | corrected member |
|---|---|---|---|---|---|---|
| content.js:131 | a non-letter answer reads `q.options.findIndex` even when `options` is null | a short-answer question (options null, answer "photosynthesis") on a form showing answer controls | no control is clicked, and the question is saved like any other | not executed | Automator.AnswerIndexAsWritten, Automator.ShortAnswerThrows, Automator.ProcessQuestion | Automator.AnswerIndex, Automator.AnswerClick |
| popup.js:47-48 | when some model name contains "gemini-1.5-flash", the select's value is set to exactly that string | the only listed model is "models/gemini-1.5-flash-001", whose option value is "gemini-1.5-flash-001" | a Flash model is selected | not executed | Popup.DefaultSelectionAsWritten, Popup.FlashVariantSelectsNothing, Popup.PopupPage.FetchModels | Popup.DefaultSelection, Popup.DefaultSelectionAgrees |

The operations follow the code as written: `Automator.ProcessQuestion` throws at the answer step, and `Popup.PopupPage.FetchModels` selects with `DefaultSelectionAsWritten`. The corrected definitions sit beside them, and lemmas show that they agree wherever the written code does not go wrong (`Automator.AnswerStepThrowsExactly`, `Popup.DefaultSelectionAgrees`).

The first finding stops the run. The exception skips the save click, and the loop state is not advanced, so every reload retries the same question (`Resume.ShortAnswerStallsRun`, `Resume.ThrowRetriesSameQuestion`). In the second finding, nothing is selected, so the select's value is "". Processing then stops at "Please select a model." (`Popup.NoSelectionFailsValidation`).
