# Regime propaganda report bot — a Dafny model of its bookkeeping and decision rules

The repository reports a list of Instagram and X/Twitter accounts, one at a time, in two ways.
The first is a browser extension: a popup, a background worker and one content script per site.
The second is a Python bot driving Chrome through Selenium, with a small web UI around it.
This project models the parts of both that can be stated without a browser. Page text,
element texts, storage and the replies of other components become plain values.

- **Background worker** (`Background`, extension/background.js). `Worker` is a class holding
  the module-level `isRunning`/`currentTabId` and the stored `isRunning`, `currentIndex`,
  `totalTargets` and `results`. `StartBot` is the run loop, proved against the functions
  `Upsert`, `Update`, `Visit`, `RunResults`, `StopPoint` and `CursorWrites`. Lemmas about those
  functions give ordering, upsert uniqueness, the monotone cursor and the final status of every
  target.
- **Popup** (`Popup`, extension/popup.js). It holds the target-list parse and the pure
  `updatePlatformUI` view derivation. `PopupState` is a class whose `Start`, `Resume`, `Stop`
  and `Check` write storage, send messages and keep the tab ids.
- **Content scripts** (`Instagram`, `Twitter`, `Content`, with `Protocol` for the reply
  objects, `Steps` for the early-return step sequences and `Search` for the element searches).
  They cover the page-text predicates, the order in which `doReport` returns its replies, the
  `reportInProgress` guard, and the element-selection loops as methods over the element texts.
  `Recording` connects each script's replies to the status the worker records.
- **Python bot** (`Bot`, `XPathLiteral`, src/bot.py). It covers the XPath 1.0 string-literal
  escape with its round trip (XPath 1.0, section 3.7 production `Literal` and section 4.2
  `concat`), the profile-page classifiers, the `report_user` decision ladder, `load_targets`,
  and the tally loop of `main`.
- **Web UI** (`App`, src/app.py). `BotState` is a class for the global `bot_state` dictionary:
  the `/api/start` and `/api/stop` branches and the append-then-overwrite loop of
  `run_bot_thread`. It also holds the status table and the pending-row rule of the page script.

Environment inputs are total functions indexed by target position: `delivery: nat -> Delivery`,
`runs: nat -> Bot.ProfileRun`, `raised: nat -> bool` and `stopBefore: nat -> bool`.
`stopBefore` is the stop request seen between targets.

## Model

| member | source | states |
|---|---|---|
| Background.FindIndex | extension/background.js:125 | the index found, if any, is in range |
| Background.FindIndexSpec | extension/background.js:125 | `findIndex` gives the first entry with the username, and none exactly when no entry has it |
| Background.UpsertSpec | extension/background.js:123-135 | `addResult` overwrites the existing entry or appends one. The list grows by at most one and earlier entries keep their usernames. No duplicate username is introduced, and the username now carries the new status |
| Background.UpdateSpec | extension/background.js:137-146 | `updateResult` changes only the matching entry's status, and leaves the list unchanged when the username is absent |
| Background.OtherStatusesUnchanged | extension/background.js:123-146 | neither `addResult` nor `updateResult` changes the status of any other username |
| Background.ClassifyCases | extension/background.js:80-90 | classification is exhaustive: `success` maps to "success"; otherwise `notFound` maps to "skipped"; every other reply, no reply, a rejected send or a navigation error maps to "failed" |
| Background.VisitSpec | extension/background.js:60-106 | after one target, that username has its classified status, other usernames keep theirs, and no duplicate appears |
| Background.StopPoint | extension/background.js:49-55 | the loop stops at the first index from `startIndex` where the stop was seen, or at the end of the list |
| Background.StopPointUnique | extension/background.js:49-55 | the stop point is the only index with these properties |
| Background.CursorWritesSorted | extension/background.js:58 | the `currentIndex` writes `i, i+1` for each processed target never decrease and stay within `[startIndex, stop]` |
| Background.RunCursorSorted | extension/background.js:32-115 | every `currentIndex` written during a run, from the initial `startIndex` to the final `totalTargets`, is non-decreasing |
| Background.RunResultsNoDuplicates | extension/background.js:60-106 | a run keeps the results list free of duplicate usernames |
| Background.RunResultsUntouched | extension/background.js:60-106 | a username not among the processed targets keeps its earlier status |
| Background.LastVisitDecides | extension/background.js:60-106 | a target's recorded status is the classification of its last visit |
| Background.RunResultsSplit | extension/background.js:49-106 | running `[a,b)` then `[b,c)` gives the same results as running `[a,c)` |
| Background.RunResultsSettled | extension/background.js:60-106 | every processed target ends with a final status, never "processing" |
| Background.Worker.StopBot | extension/background.js:118-121 | both running flags go down and nothing else changes, so a second stop changes nothing |
| Background.Worker.AddResult | extension/background.js:123-135 | the stored results become the upsert of the old ones |
| Background.Worker.UpdateResult | extension/background.js:137-146 | the stored results become the update of the old ones |
| Background.Worker.ProcessTarget | extension/background.js:58-106 | one target: `currentIndex` is written as `i`, then `i+1`, and the results gain the classified status |
| Background.Worker.Advance | extension/background.js:58-106 | processing target `i` after a run up to `i` leaves the results and cursor writes of a run up to `i+1`, and leaves both flags and the tab alone |
| Background.Worker.RunTargets | extension/background.js:49-107 | the loop processes targets in order from `startIndex` up to the stop point, and results and cursor writes follow `RunResults` and `CursorWrites` |
| Background.Worker.StartBot | extension/background.js:27-116 | `startIndex == 0` clears the results, any other start keeps them. The results, cursor writes and final state follow the run, and the run ends with both flags down and `currentIndex = totalTargets` |
| Popup.ParseTargets | extension/popup.js:175 | every parsed target is non-empty and trimmed |
| Popup.TargetsComeFromLines | extension/popup.js:175 | every parsed target is the trim of some textarea line |
| Popup.ParseTargetsInLineOrder | extension/popup.js:175 | parsing keeps textarea line order |
| Popup.ParseTargetsOfCleanLines | extension/popup.js:175 | clean names joined by newlines parse back to themselves |
| Popup.UpdatePlatformUI | extension/popup.js:142-170 | there is one row per stored result |
| Popup.StatusLabelCases | extension/popup.js:143-151 | the label is "Running..." when running, else "Paused" iff `0 < idx < total`, else "Idle" |
| Popup.ButtonFlags | extension/popup.js:153-155 | start and resume are disabled iff running or there is no tab; stop is disabled iff not running |
| Popup.ResumeVisibility | extension/popup.js:147-161 | the resume button is visible iff there is progress |
| Popup.EmptyStorageView | extension/popup.js:143-146 | missing values default to not running, 0, 0 and no rows: "Idle" and "0 / 0" |
| Popup.ProgressTextReadsBack | extension/popup.js:164 | the progress text splits into the two decimals around "/" and reads back as `idx` and `total` |
| Popup.RowsFollowResults | extension/popup.js:165-169 | row `k` shows result `k`'s username, its label and its status as CSS class |
| Popup.ResultLabelCases | extension/popup.js:165-169 | the four known statuses get fixed labels, and any other status is shown as it is |
| Popup.KeysDiffer | extension/popup.js:173 | keys with the same platform prefix and different names are different keys |
| Popup.StartWritesRead | extension/popup.js:179-186 | after `start`'s writes the stored `isRunning` reads true, `currentIndex` 0, `totalTargets` the number of targets and `results` the empty list |
| Popup.PopupState.Start | extension/popup.js:172-189 | no targets: only an alert. Otherwise it writes `currentIndex 0`, `results []`, `isRunning true` and `totalTargets = \|targets\|`, then sends `START_BOT` with `startIndex 0` |
| Popup.PopupState.Resume | extension/popup.js:191-209 | no targets: only an alert. Otherwise it writes `targets`, `targetsList`, `totalTargets` and `isRunning true`, and sends the stored `currentIndex` (0 if absent) as `startIndex` |
| Popup.PopupState.Stop | extension/popup.js:211-215 | writes only `isRunning false` and sends `STOP_BOT` |
| Popup.PopupState.Check | extension/popup.js:103-140 | keeps the first tab found per site and derives both panels from storage |
| Popup.ResumeKeeps | extension/popup.js:200-205 | every key other than the four `resume` writes keeps its presence and value, so `results` and `currentIndex` survive a resume |
| Popup.PanelAfterStart | extension/popup.js:172-189 | right after a start, the panel shows "Running...", progress "0 / n" and no rows |
| Instagram.CheckProfileExists | extension/content-instagram.js:142-150 | false iff some not-found indicator occurs in the lowercased body text |
| Instagram.PageTextIgnoresCase | extension/content-instagram.js:142-156 | both page-text predicates ignore case |
| Instagram.RateLimitedByPhrase | extension/content-instagram.js:152-156 | text containing "try again later" is rate limited |
| Instagram.ReportOutcomeCases | extension/content-instagram.js:56-131 | the order of replies is: load timeout, then not found, then `rateLimited` with `retryAfterMs` 60000, then the first failed mandatory step, else success — each iff its condition holds |
| Instagram.ReportStepError | extension/content-instagram.js:73-115 | the error returned is that of the first failed mandatory step |
| Instagram.ReportIgnoresLastSteps | extension/content-instagram.js:117-131 | the results of steps 6 and 7 never change the reply |
| Instagram.ReportListener.constructor | extension/content-instagram.js:14 | no report is in progress at load |
| Instagram.ReportListener.DoReport | extension/content-instagram.js:38-140 | the reply is the modelled outcome, and `reportInProgress` is false on every exit |
| Instagram.ReportListener.OnMessage | extension/content-instagram.js:18-36 | `PING` answers pong, and `DO_REPORT` while busy answers "Busy" without a report. Any other `DO_REPORT` runs one and resets the flag; other messages get no answer |
| Instagram.ClickButtonByText | extension/content-instagram.js:271-287 | clicks the first element, texts-major, whose lowercased text contains the lowercased search text, and returns none iff no pair matches |
| Instagram.CloseDialogs | extension/content-instagram.js:250-263 | clicks the first button, texts-major, whose trimmed lowercased text equals a close text, and returns none iff none does |
| Instagram.NoLetterB | extension/content-instagram.js:13 | lowercasing text without a "b" cannot produce one |
| Instagram.BlockGuardPasses | extension/content-instagram.js:256-257 | for a close text without "b", the `'block'` guard never changes the match |
| Instagram.BlockGuardRedundant | extension/content-instagram.js:250-263 | no close text contains "block", so the guard never excludes a button |
| Instagram.ClickOptionsMenu | extension/content-instagram.js:158-186 | picks the first selector whose element has a button ancestor, else the last header button, and fails iff neither exists |
| Instagram.ClickReportAccount | extension/content-instagram.js:192-206 | the text search comes first. The second list/dialog button is used iff the text search fails and at least two exist; otherwise it fails |
| Twitter.CheckProfileExists | extension/content-twitter.js:100-108 | false iff some lowercased indicator occurs in the lowercased body text |
| Twitter.SameLowerSameAnswers | extension/content-twitter.js:100-115 | two body texts that differ only in case get the same answers from both page-text predicates |
| Twitter.TooManyRequestsIsRateLimited | extension/content-twitter.js:110-115 | text containing "Too Many Requests" in any case is rate limited |
| Twitter.ReportOutcomeCases | extension/content-twitter.js:27-98 | not found comes before rate limiting, and rate limiting is the plain error "Rate limited" with no `rateLimited` flag. Steps 1-4 are mandatory, each failure returns its own error, and success holds iff all four went through |
| Twitter.ReportIgnoresSubmit | extension/content-twitter.js:84-91 | the submit result never changes the reply |
| Twitter.ClickReportButton | extension/content-twitter.js:135-159 | clicks the first element, texts-major, whose trimmed text contains a report text, and returns none iff none does |
| Twitter.ReportAtContainsReport | extension/content-twitter.js:137-156 | any text matched by "Report @" is matched by "Report" |
| Twitter.ReportAtNeverClicks | extension/content-twitter.js:137-156 | the third report text can never be the one that produces the click |
| Twitter.EqualityImpliedByStartsWith | extension/content-twitter.js:196-200 | the equals-or-starts-with test is the same as starts-with alone |
| Twitter.ClickRadioOptionByText | extension/content-twitter.js:171-210 | picks the first label containing the text, else the first element equal to or starting with it, and fails iff both searches fail |
| Twitter.ClickNextButton | extension/content-twitter.js:212-227 | clicks the first button, buttons-major, whose trimmed text equals Next/Submit/Continue/Done in any case, and returns none iff none does |
| Twitter.NextButtonOrder | extension/content-twitter.js:212-227 | with buttons "Done" then "Next", the "Done" button is clicked although "Next" is searched first |
| Twitter.CloseDialogs | extension/content-twitter.js:233-261 | a close text matching the trimmed text or the aria-label comes first, else the `[aria-label="Close"]` fallback, and it fails iff neither is found |
| Twitter.CloseLabelFoundByText | extension/content-twitter.js:241-258 | a button labelled "Close" is already found by the text search |
| Content.ReportOutcomeCases | extension/content.js:28-117 | not found comes before rate limiting, which gives the plain error "Rate limited". All six steps are mandatory, and success holds iff all six went through |
| Content.StepErrorsDistinct | extension/content.js:50-106 | each mandatory step fails with its own error string |
| Content.ReportIgnoresSubmit | extension/content.js:101-110 | the submit result never changes the reply |
| Steps.FirstFailure | extension/content-instagram.js:73-115 | none iff every step went through, otherwise the error of the first failed step |
| Steps.FailureIgnoresLater | extension/content-instagram.js:73-115 | steps after a failure never change the outcome |
| Steps.SuccessDefersToLater | extension/content-instagram.js:73-115 | after steps that all went through, the later steps decide |
| Steps.RunSteps | extension/content-instagram.js:73-115 | running the steps in order with early return yields the first failure and stops right after it |
| Search.FirstMatchUnique | extension/content-instagram.js:271-287 | the texts-major first match is unique |
| Search.FirstTextsMajor | extension/content-instagram.js:276-285 | the nested loop (outer over texts) returns the first match in texts-major order, or none iff nothing matches |
| Search.FirstElementsMajor | extension/content-twitter.js:215-225 | the nested loop (outer over elements) returns the first element matching any text, or none iff none does |
| Recording.InstagramRecorded | extension/background.js:80-90 | an Instagram target is recorded "success" iff every mandatory step went through on a loaded, existing, unthrottled page, and "skipped" iff the page says it does not exist |
| Recording.InstagramRateLimitRecordedAsFailure | extension/background.js:80-90 | the worker ignores `rateLimited`/`retryAfterMs`, so a rate-limited profile is recorded "failed" |
| Recording.BusyRecordedAsFailure | extension/background.js:80-90 | a "Busy" reply is recorded "failed" |
| Recording.TwitterRecorded | extension/background.js:80-90 | if a content-twitter.js reply reached the worker, it is recorded "success" iff the four mandatory steps went through, and "skipped" iff the profile does not exist |
| Recording.ContentRecorded | extension/background.js:80-90 | with the older script, "success" iff its six mandatory steps went through, and "skipped" iff the profile does not exist |
| XPathLiteral.EscapeForms | src/bot.py:98-106 | no apostrophe: a single-quoted literal of the text. Apostrophe and no double quote: a double-quoted literal. Both: a `concat` whose arguments are the apostrophe-free pieces interleaved with `"'"` |
| XPathLiteral.EscapeConcatArgumentCount | src/bot.py:104-106 | the `concat` has one `"'"` argument per apostrophe, so it has at least three arguments |
| XPathLiteral.EscapeConcatArguments | src/bot.py:104-106 | the `concat` call parses to the pieces between apostrophes with `"'"` between them |
| XPathLiteral.EscapeRoundTrip | src/bot.py:98-106 | the escaped string, evaluated as an XPath 1.0 literal or `concat` expression, denotes exactly the input |
| Bot.ProfileExistsFast | src/bot.py:209-225 | false iff the page source is unreadable or some not-found indicator occurs in it lowercased |
| Bot.ProfileStatus | src/bot.py:228-247 | false iff the page reads "restricted your account" or "try again later"; an unreadable page is true |
| Bot.PrivateAccountProceeds | src/bot.py:244-245 | a private account that is not throttled proceeds |
| Bot.SameIndicatorsAsExtension | src/bot.py:38-45 | the bot's indicators are the Instagram content script's |
| Bot.ChecksAgreeWithExtension | src/bot.py:209-247 | on a readable page both checks agree with the Instagram script's `checkProfileExists` and `!isRateLimited` |
| Bot.ReportUser | src/bot.py:379-477 | the result is "success", "skipped" or "failed" |
| Bot.ReportUserCases | src/bot.py:404-477 | "failed" iff opening, the options menu or the Report button fails first. "skipped" iff a profile check fails first. Otherwise "success" |
| Bot.ReportUserIgnoresLaterSteps | src/bot.py:434-469 | steps 4 through submit never change the outcome |
| Bot.RateLimitedProfileIsSkipped | src/bot.py:415-416 | an opened, throttled profile page gives "skipped" |
| Bot.ReportUserSafe | src/bot.py:480-491 | an exception gives "failed"; otherwise the result is `report_user`'s |
| Bot.UniversalNewlines | src/bot.py:501 | text-mode reading leaves no carriage return |
| Bot.UniversalNewlinesOfPlain | src/bot.py:501 | text without carriage returns reads unchanged |
| Bot.LoadTargets | src/bot.py:498-505 | every target is non-empty and stripped |
| Bot.LoadTargetsOfCleanLines | src/bot.py:498-505 | clean names written one per line load back as the same list, in file order |
| Bot.JoinWithoutCarriageReturn | src/bot.py:498-505 | lines without carriage returns joined by newlines contain none |
| Bot.TallyOf | src/bot.py:547-560 | the three counters add up to the number of results |
| Bot.TallyCountsResults | src/bot.py:547-560 | the success and skipped counters are the multiplicities of those results, and every other result counts as failed |
| Bot.TallyOfStatuses | src/bot.py:547-560 | on results from `report_user_safe`, the failed counter is the multiplicity of "failed" |
| Bot.StatusMultiplicities | src/bot.py:547-560 | the multiplicities of the three statuses add up to the number of results |
| Bot.Outcomes | src/bot.py:547-556 | one result per target |
| Bot.RunBot | src/bot.py:512-573 | no tally when there are no targets or the URL contains "login". Otherwise the tally of the outcomes, whose counters add up to the number of targets |
| App.StatusEntry | src/app.py:352-357 | the status is always "success", "skipped" or "failed" |
| App.StatusTableCases | src/app.py:352-357 | the three known results keep their status, and anything else gives ("failed", "Unknown error") and only then |
| App.DefaultNeverUsed | src/app.py:349-357 | the default row never applies to a `report_user_safe` result |
| App.Processed | src/app.py:338-341 | the loop processes at most all targets, stopping at the first stop request, and none when not running |
| App.RunEntries | src/app.py:343-363 | one entry per processed target |
| App.RunEntriesSettled | src/app.py:343-363 | entry `i` is target `i` with the mapped status of its result |
| App.BotState.constructor | src/app.py:232-237 | the initial `bot_state`: not running, index 0, no results |
| App.BotState.ApiStart | src/app.py:279-285 | resets `running`, `current_index` and `results` only when not running; otherwise `bot_state` is unchanged |
| App.BotState.ApiStop | src/app.py:287-289 | `running` becomes false and a second stop changes nothing |
| App.BotState.ReportTarget | src/app.py:342-363 | `current_index` is the target's index, and exactly one entry is appended: first "processing", then overwritten with the mapped status |
| App.BotState.RunTargets | src/app.py:338-366 | targets are processed in order until the first stop request, one final entry each |
| App.BotState.RunBotThread | src/app.py:310-368 | an exception other than `SystemExit` from driver setup or from opening the tab ends the thread with `bot_state` unchanged, `running` included. Otherwise `running` is false at the end: after `SystemExit` nothing else changes, a login URL gives the single SYSTEM error entry and no target is processed, and else the entries follow the run |
| App.ProcessingLog | src/app.py:343-347 | one "processing" entry per processed target |
| App.ProcessingLogGrows | src/app.py:342-347 | each iteration adds that target's "processing" entry at its index |
| App.RunEntriesGrow | src/app.py:343-363 | each iteration adds that target's final entry |
| App.Pending | src/app.py:866-874 | a name is pending iff it is a target with no result |
| App.PendingRows | src/app.py:866-874 | the loop yields exactly the pending targets |
| App.PendingInTargetOrder | src/app.py:866-874 | pending rows keep target order |
| App.NothingDoneAllPending | src/app.py:866-874 | with no results every target is pending |
| App.AllDoneNonePending | src/app.py:866-874 | once every target has a result, nothing is pending |
| App.RunUsernames | src/app.py:343-363 | the result usernames after `n` targets are exactly the first `n` targets |
| App.FreshRunPending | src/app.py:866-874 | with distinct targets, the pending rows after `n` targets are the remaining targets in order |

## Left out

- Browser and Selenium plumbing: the DOM, `chrome.tabs`, `chrome.runtime` and `notifyPopup`, tab loading, clicks and XPath waits. Their results are inputs (`Delivery`, the booleans of `ReportPage` and `ProfileRun`, element-text sequences).
- Timing and randomness: `sleep`, random delays, the deadlines of `retryFor`/`waitFor` and `waitForTabLoad`. A step that times out is a failed step.
- Float progress percentages in the popup and in the web page: floating point.
- Lowercasing covers ASCII and Latin-1 letters only, while JavaScript and Python fold all of Unicode. Every constant in the source lies in that range.
- Popup.ResultLabel: the label table is a JavaScript object literal, so a status such as "constructor" would hit an inherited property. The model treats the table as a plain four-entry map.
- Popup.PopupState: stored values are typed (`Stored`); values of a different type written by other code are not modelled.
- Background.Worker.StartBot: the `platform` field of `START_BOT` is ignored by the worker, and the `startIndex \|\| 0` defaulting in the listener is outside the model. The model receives a `nat`.
- Key mismatch: the popup writes prefixed keys (`ig_isRunning`) while the worker uses unprefixed ones (`isRunning`). Each file is modelled with its keys as written.
- Concurrency: a stop arrives only between targets (`stopBefore`). A second `START_BOT` or `/api/start` during a run, which starts a second loop or thread, is not modelled.
- Instagram.ReportListener.DoReport: an exception thrown inside `doReport`, answered with `e.message` by the listener, is not modelled. The same holds for the listeners of content-twitter.js and content.js, which only forward `doReport`'s reply.
- Bot.LoadTargets: I/O errors other than a missing file are not modelled. The model receives the file as decoded text. app.py's `load_targets` (src/app.py:220-226) is the same function after decoding, and is modelled by it.
- File encoding: src/bot.py:501 reads the targets as UTF-8, while src/app.py:224 uses the locale's encoding. Under a non-UTF-8 locale the same bytes decode differently, and a decode error raises in only one of the two. The model does not capture decoding.
- Recording.TwitterRecorded: the worker only ever opens `https://www.instagram.com/<username>/` (extension/background.js:65-67), so no reply of content-twitter.js reaches it through this worker. The lemma states what would be recorded if one did.
- Bot.RunBot: `setup_driver` failure (`SystemExit`), logging and the sleeps between targets are left out. `block_user` is disabled in the source and not modelled.
- App.BotState.RunBotThread: Chrome launch, driver setup and the opening of the tab are reduced to one `DriverSetup` input with three outcomes (ready, `SystemExit`, another exception). The HTTP handler, HTML and translations are I/O and UI.
