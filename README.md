# Quote app: sync, offline queue and list handling, modelled in Dafny

The quote app (`dom-manipulation/`) is a browser page that shows quotes one at
a time, and lets the user add, edit, delete, filter, search, import and export
them. Quotes live in `localStorage` under `savedQuotes` and are kept in step
with a JSON server. This project models the parts that carry logic:

- **`syncQuotes.js`**
  - `getLocalQuotes`.
  - Record validation and normalisation.
  - `mergeQuotes`: server wins, with field-level conflict reports.
  - The backoff formula.
  - `syncQuotes`, a reentrant round with a retry counter. It checks health, fetches, merges, saves, pushes local-only quotes and drains the queue.
- **`fetchQuotes.js`**
  - The `isServerAvailable` flag and `checkServerHealth`.
  - The queue of undelivered writes and `processQueuedRequests`, which replays it.
  - The three write operations: create, update and delete.
  - The offline fallback of `fetchQuotesFromServer`.
  - The 30-second health poll, as an event.
- **`script.js`**
  - `findMaxID`.
  - The Fisher–Yates shuffle.
  - Import renumbering.
  - Delete and update by id.
  - The category list.
  - The category and search filters.
  - "New quote" cycling.
  - The page state that the handlers reassign.

Files:

- `wrappers.dfy`: `Option`.
- `js_string.dfy` (`JsString`): the string built-ins the app relies on: `trim`, `toLowerCase`, `includes`, string `<`, and decimal `toString`.
- `quote_model.dfy` (`QuoteModel`): the quote record and the `savedQuotes` storage entry, which is one of:
  - missing;
  - unparsable;
  - a non-array with its truthiness;
  - an array.
- `merge_engine.dfy` (`MergeEngine`): `validateQuote`, `normalizeQuote` and `mergeQuotes`. Specification functions and lemmas sit beside a `MergeQuotes` method that has the two loops of the source.
- `remote_client.dfy` (`RemoteClient`): a `Client` class holding the module state of `fetchQuotes.js`, and the specification of its operations as functions over a `Link` value (availability flag plus queue). Network answers are oracle parameters: `ok`, `oks(k)`, a reply payload. `now` stands for `Date.now()`.
- `sync.dfy` (`SyncOrchestrator`): a `Synchronizer` class holding `syncInProgress` and `retryCount`. Its `SyncQuotes` is proved against `SyncedRound`, a function of the stored entry, the queue and a `Network` oracle.
- `quote_list.dfy` (`QuoteList`): the list operations of `script.js`. `findMaxID` appears both as written and corrected, and the shuffle works in place on an array.
- `quote_browser.dfy` (`QuoteBrowser`): a `Browser` class holding the closure state of `script.js`, with one method per handler. The DOM is reduced to the quote on screen.

Where the repository's written description and the code disagree, the model follows the code:

- **Merging twice.** Merging the result of a merge again is not always a no-op. A whitespace-only author trims to `""`. A second `normalizeQuote` then turns `""` into `"Unknown"`. `MergeIdempotent` therefore excludes such authors, and `NormalizeNotIdempotentOnBlankAuthor` exhibits the record.
- **Retry limit.** The retry counter allows three retries. The fourth consecutive failure is the terminal one, and it resets the counter to 0 (`FourFailures`).
- **Retry delay.** The warning announces a wait of 2^n seconds. The actual wait is 1 s of timer plus `exponentialBackoff(n - 1)`, which gives 2, 3 and 5 s where 2, 4 and 8 s are announced (`RetryWaits`).
- **Fetch never throws.** `fetchQuotesFromServer` always returns an array: the server's, the cached one, or the built-in quotes. The "invalid server response" branch of `syncQuotes` (`syncQuotes.js:145-147`) is therefore dead. A round whose health check passed but whose fetch failed merges local storage with the cache or the built-in quotes.

## Model

| member | source | states |
|---|---|---|
| JsString.Trim | dom-manipulation/syncQuotes.js:56-58 | the result is no longer than the input; it is empty exactly when the input is all whitespace; otherwise it starts and ends with a non-whitespace character |
| JsString.TrimIsInnerBlock | dom-manipulation/syncQuotes.js:56-58 | the trimmed string is a block of the input with only whitespace before and after it |
| JsString.TrimIdempotent | dom-manipulation/syncQuotes.js:56-58 | trimming twice is trimming once |
| JsString.TrimFixedPoint | dom-manipulation/syncQuotes.js:56-58 | trim leaves a string unchanged exactly when it is empty or begins and ends with non-whitespace |
| JsString.ToLower | dom-manipulation/script.js:464 | same length; every character is case-folded, with letters A-Z mapped to a-z |
| JsString.DecimalString | dom-manipulation/script.js:388 | `toString` of a non-negative integer is a non-empty digit string whose decimal value is that integer |
| JsString.DecimalStringInjective | dom-manipulation/script.js:388 | different numbers render as different strings |
| MergeEngine.ValidateQuoteMeaning | dom-manipulation/syncQuotes.js:42-51 | a record passes exactly when it has a string id and string text and category that each hold a non-whitespace character |
| MergeEngine.NormalizeQuote | dom-manipulation/syncQuotes.js:53-61 | the id is kept; the result is valid and normal (trimmed strings, boolean flag, author present) |
| MergeEngine.NormalizedFlag | dom-manipulation/syncQuotes.js:59 | the normalised `editable` is a boolean, true exactly when the stored value is `true` or another truthy value |
| MergeEngine.NormalizedAuthorEmpty | dom-manipulation/syncQuotes.js:58 | the normalised author is `""` exactly when the author was whitespace-only |
| MergeEngine.NormalFixedPoint | dom-manipulation/syncQuotes.js:53-61 | a normal record is left unchanged exactly when its author is not `""` |
| MergeEngine.NormalizeIdempotent | dom-manipulation/syncQuotes.js:53-61 | normalising twice equals normalising once exactly when the author is not whitespace-only |
| MergeEngine.NormalizeNotIdempotentOnBlankAuthor | dom-manipulation/syncQuotes.js:58 | the author `" "` normalises to `""` and then to `"Unknown"` |
| MergeEngine.ValidNormalized | dom-manipulation/syncQuotes.js:69-74 | no more records than the input, each valid and normal |
| MergeEngine.ValidNormalizedMembers | dom-manipulation/syncQuotes.js:69-74 | the output records are exactly the normalised images of the valid input records |
| MergeEngine.ValidNormalizedIds | dom-manipulation/syncQuotes.js:65-74 | every output id is the id of some raw input record |
| MergeEngine.LocalOnlyMembers | dom-manipulation/syncQuotes.js:108-113 | a record is kept exactly when it is in the list and its id is not in the id set |
| MergeEngine.LocalOnlyIsSubsequence | dom-manipulation/syncQuotes.js:108-113 | the kept records keep their relative order |
| MergeEngine.LocalOnlyAppend | dom-manipulation/syncQuotes.js:108-113 | the local-only filter distributes over concatenation |
| MergeEngine.LocalOnlyKeepsAll | dom-manipulation/syncQuotes.js:108-113 | with no id in the set, the filter is the identity |
| MergeEngine.LocalOnlyDropsAll | dom-manipulation/syncQuotes.js:108-113 | with every id in the set, the filter is empty |
| MergeEngine.FindIndex | dom-manipulation/syncQuotes.js:78-80 | the position of the first record with the id, or the length when there is none; no earlier record has the id |
| MergeEngine.FirstWithId | dom-manipulation/syncQuotes.js:78-80 | `find` returns nothing exactly when no record has the id; otherwise a listed record with that id |
| MergeEngine.ConflictsCharacterised | dom-manipulation/syncQuotes.js:76-106 | every conflict pairs a valid server record with the first valid local record of its id, its flags are the three field comparisons, and at least one is set; every such differing pair is reported; reports follow server order |
| MergeEngine.DisjointNoConflicts | dom-manipulation/syncQuotes.js:76-106 | no shared ids between the valid lists means no conflicts |
| MergeEngine.SelfFirstNoConflicts | dom-manipulation/syncQuotes.js:82-99 | when every server record finds itself, nothing conflicts |
| MergeEngine.MergeQuotes | dom-manipulation/syncQuotes.js:63-116 | its two passes build exactly the merged list and the conflict list of the specification |
| MergeEngine.MergeServerQuotes | dom-manipulation/syncQuotes.js:76-106 | the server loop keeps every valid server record in order and records exactly the conflicts `Conflicts` characterises |
| MergeEngine.AppendLocalOnly | dom-manipulation/syncQuotes.js:108-113 | the local loop appends exactly the valid local records whose id is not in the server id set, in order |
| MergeEngine.MergedContents | dom-manipulation/syncQuotes.js:63-116 | the merge holds exactly the valid normalised server records and the valid normalised local records whose id the raw server list lacks; all merged records are valid and normal |
| MergeEngine.ServerWins | dom-manipulation/syncQuotes.js:76-105 | a merged record whose id the server list carries is the server's record |
| MergeEngine.ShadowedLocalDropped | dom-manipulation/syncQuotes.js:65-113 | an id carried only by invalid server records disappears from the merge, local copy included |
| MergeEngine.InvalidNeverMerged | dom-manipulation/syncQuotes.js:69-74 | an invalid record never reaches the merge |
| MergeEngine.DisjointMerge | dom-manipulation/syncQuotes.js:63-116 | with disjoint ids the merge is the server part followed by the local part, with no conflicts |
| MergeEngine.SharedIdConflict | dom-manipulation/syncQuotes.js:82-102 | a shared id with different texts is reported with the text flag set, and the server record is merged |
| MergeEngine.MergeIdempotent | dom-manipulation/syncQuotes.js:63-116 | merging the merged list against the same server list changes nothing and reports no conflicts, given distinct server ids and no whitespace-only authors |
| MergeEngine.NormalListIsFixed | dom-manipulation/syncQuotes.js:69-74 | a list of valid normal records with non-empty authors is its own validation and normalisation |
| RemoteClient.RequestBodies | dom-manipulation/fetchQuotes.js:151-185 | a POST or PATCH body always has a non-empty author, the argument's own when it is non-empty; other fields and the target id are the operation's |
| RemoteClient.SubmittedOutcome | dom-manipulation/fetchQuotes.js:143-214 | a write resolves exactly when the server is marked available and the request succeeds; a request is sent exactly when the server is marked available; a rejection marks the server down and queues exactly one entry |
| RemoteClient.FailFastIgnoresNetwork | dom-manipulation/fetchQuotes.js:144-149 | with the server marked down, the outcome does not depend on the network and no request is sent |
| RemoteClient.SubmittedKeepsQueuePrefix | dom-manipulation/fetchQuotes.js:78-80 | the queue only grows, by at most one entry, at its end |
| RemoteClient.Replay | dom-manipulation/fetchQuotes.js:89-97 | one success flag per replayed entry |
| RemoteClient.ReplayPrefix | dom-manipulation/fetchQuotes.js:89-97 | after k replays, the first min(p, k) succeeded, where p counts the answers before the first failure; the server stays marked available only if all k succeeded; each failure appended one copy |
| RemoteClient.DrainedShape | dom-manipulation/fetchQuotes.js:83-104 | after a drain the queue is the failed suffix followed by one re-stamped copy of each failed entry; the server is marked available exactly when every replay succeeded |
| RemoteClient.DrainKeepsFailedInOrder | dom-manipulation/fetchQuotes.js:83-104 | successful entries are removed, failed ones stay in order; the queue ends empty exactly when all succeed; with the server down at the start nothing is removed |
| RemoteClient.DrainAllSucceed | dom-manipulation/fetchQuotes.js:83-104 | an available server and all answers succeeding empties the queue |
| RemoteClient.OneQueuedCreateReplayed | dom-manipulation/fetchQuotes.js:83-104 | one queued create replayed successfully leaves an empty queue and an available server |
| RemoteClient.OfflineChoice | dom-manipulation/fetchQuotes.js:123-139 | offline, a cached array is returned as is; otherwise the five built-in quotes with ids "1" to "5" |
| RemoteClient.FailedCreates | dom-manipulation/syncQuotes.js:166-173 | no more queued creates than pushes |
| RemoteClient.FailedCreatesBounds | dom-manipulation/syncQuotes.js:166-173 | with the server down every push queues its create in order; with it up and all requests succeeding nothing is queued; each queued entry creates a pushed quote |
| RemoteClient.WithoutSucceeded | dom-manipulation/fetchQuotes.js:100-102 | the loop keeps exactly the entries not flagged as succeeded, in order |
| RemoteClient.Client.constructor | dom-manipulation/fetchQuotes.js:37-39 | available, empty queue, not draining |
| RemoteClient.Client.CheckServerHealth | dom-manipulation/fetchQuotes.js:65-75 | the HEAD outcome is returned and becomes the availability flag; the queue is untouched |
| RemoteClient.Client.QueueRequest | dom-manipulation/fetchQuotes.js:78-80 | appends one stamped entry and changes nothing else |
| RemoteClient.Client.Submit | dom-manipulation/fetchQuotes.js:143-214 | the new state, the outcome and the request sent are those of `Submitted` |
| RemoteClient.Client.CreateQuoteOnServer | dom-manipulation/fetchQuotes.js:143-167 | as `Submitted` for a create; the server's reply is returned only on success |
| RemoteClient.Client.UpdateQuoteOnServer | dom-manipulation/fetchQuotes.js:169-193 | as `Submitted` for an update |
| RemoteClient.Client.DeleteQuoteFromServer | dom-manipulation/fetchQuotes.js:195-214 | as `Submitted` for a delete |
| RemoteClient.Client.PushAll | dom-manipulation/syncQuotes.js:166-179 | the state after the concurrent pushes is `Pushed`, and the failure count is the number of queued creates |
| RemoteClient.Client.ProcessQueuedRequests | dom-manipulation/fetchQuotes.js:83-104 | a drain already running changes nothing; otherwise the state becomes `Drained` of the old state |
| RemoteClient.Client.FetchQuotesFromServer | dom-manipulation/fetchQuotes.js:106-141 | an array reply is returned, marks the server available and drains the queue; any failure marks the server down and returns the offline quotes |
| RemoteClient.Client.HealthPoll | dom-manipulation/fetchQuotes.js:217-224 | nothing happens while the server is marked available; otherwise the HEAD answer sets the flag, and a healthy answer drains the queue unless a drain is already running |
| RemoteClient.LiveDrainNeverEnds | dom-manipulation/fetchQuotes.js:89-97 | the `for...of` as written: once the server is marked down, every iteration appends an entry, so the loop never reaches the end of the array |
| RemoteClient.LiveDrainAllSucceed | dom-manipulation/fetchQuotes.js:89-97 | when every replay succeeds, the loop as written ends after the original entries and appends nothing |
| RemoteClient.LiveDrainOneFailedDelete | dom-manipulation/fetchQuotes.js:89-97 | one queued delete with the server down: after n iterations the loop is still running, with n + 1 entries |
| SyncOrchestrator.RetryWaits | dom-manipulation/syncQuotes.js:118-121 | each backoff doubles the last; the retries wait 2, 3 and 5 s while 2, 4 and 8 s are announced; the two agree only for the first retry |
| SyncOrchestrator.AfterFailureRule | dom-manipulation/syncQuotes.js:220-239 | a failure schedules a retry exactly when the incremented counter is at most 3, and otherwise resets the counter to 0; the counter never exceeds 3 |
| SyncOrchestrator.ConsecutiveFailures | dom-manipulation/syncQuotes.js:220-239 | after k failures from a fresh counter, the counter is k mod 4; failure k is terminal exactly when 4 divides k |
| SyncOrchestrator.FourFailures | dom-manipulation/syncQuotes.js:220-239 | retries after 2, 3 and 5 s; the fourth failure is terminal |
| SyncOrchestrator.LoadLocalCases | dom-manipulation/syncQuotes.js:23-40 | an array is returned unchanged; unparsable content or a truthy non-array gives `[]` and resets storage; missing or falsy content gives `[]` without a rewrite |
| SyncOrchestrator.LoadLocalSettles | dom-manipulation/syncQuotes.js:23-40 | a second read returns the same quotes and rewrites nothing; a saved array reads back as saved |
| SyncOrchestrator.PushedAreRawLocalOnly | dom-manipulation/syncQuotes.js:160-164 | the pushed quotes are exactly the raw local records whose id the raw server list lacks, valid or not, in local order; `pushedCount` is their number |
| SyncOrchestrator.InvalidLocalOnlyPushedNotSaved | dom-manipulation/syncQuotes.js:150-164 | an invalid local-only record is pushed but not saved |
| SyncOrchestrator.ShadowedLocalLost | dom-manipulation/syncQuotes.js:150-164 | a local record whose id only invalid server records carry is neither saved nor pushed |
| SyncOrchestrator.SelfSyncPushesNothing | dom-manipulation/syncQuotes.js:161-164 | syncing against a server holding the local list pushes nothing |
| SyncOrchestrator.LocalOnlyQuoteKeptAndPushed | dom-manipulation/syncQuotes.js:149-169 | a valid local quote against an empty server is kept, raises no conflict, and is pushed |
| SyncOrchestrator.TextConflictServerWins | dom-manipulation/syncQuotes.js:82-102 | one id with different texts: the server record is the merge and exactly one conflict is reported, on text only |
| SyncOrchestrator.SharedIdSingletons | dom-manipulation/syncQuotes.js:76-113 | one valid normal record per side with the same id: the merge is the server record and the report is that pair's |
| SyncOrchestrator.Synchronizer.constructor | dom-manipulation/syncQuotes.js:17-19 | not syncing, counter 0 |
| SyncOrchestrator.Synchronizer.GetLocalQuotes | dom-manipulation/syncQuotes.js:23-40 | returns `LoadLocal` of the entry and leaves the entry as `AfterLoad` |
| SyncOrchestrator.Synchronizer.SyncQuotes | dom-manipulation/syncQuotes.js:123-245 | a call during a round changes nothing; otherwise the flag is cleared on exit; a failed health check follows `AfterFailure` and marks the server down; a passed one saves, pushes and drains as in `SyncedRound` and resets the counter; the counter invariant is kept |
| QuoteList.FilterSpec | dom-manipulation/script.js:449-451 | `filter` keeps exactly the passing elements, in order |
| QuoteList.MaxIdIsMax | dom-manipulation/script.js:46-67 | on a non-empty list the maximum is one of the ids and no id exceeds it |
| QuoteList.FindMaxID | dom-manipulation/script.js:46-67 | 0 for no ids; otherwise one of the ids, and no id exceeds it |
| QuoteList.LexMaxIdIsMax | dom-manipulation/script.js:53-66 | as written, the result is one of the ids and no id is greater under string comparison |
| QuoteList.FindMaxIDAsWritten | dom-manipulation/script.js:46-67 | the loop over string ids computes the string-order maximum |
| QuoteList.LexMaxIdAgreesWhenOrdered | dom-manipulation/script.js:59-64 | when string order agrees with numeric order on the ids, the as-written maximum is the numeric maximum |
| QuoteList.LexMaxIdMisordersNumbers | dom-manipulation/script.js:61 | for the ids "9" and "10" the as-written result is "9", while the numeric maximum is 10 |
| QuoteList.Renumbered | dom-manipulation/script.js:386-389 | the imported quotes keep their fields, and the i-th gets id maxID + i + 1 as a string |
| QuoteList.ImportedLayout | dom-manipulation/script.js:382-390 | the stored quotes come first, unchanged; the imported ones follow in file order with ids maxID+1, …, maxID+n |
| QuoteList.ImportIdsFresh | dom-manipulation/script.js:382-390 | numbered after the numeric maximum, the new ids clash with no stored id and with each other |
| QuoteList.ImportCollidesAsWritten | dom-manipulation/script.js:382-390 | as written, stored ids "9" and "10" give the first imported quote the id "10" again |
| QuoteList.ImportFreshForNineAndTen | dom-manipulation/script.js:382-390 | with the numeric maximum, the same import gets "11" |
| QuoteList.ShuffleElements | dom-manipulation/script.js:113-121 | for any choices 0 ≤ j ≤ i, the array ends as a permutation of its old contents |
| QuoteList.DisplayRandomQuotes | dom-manipulation/script.js:127-129 | returns a rearrangement of the argument, same length and multiset; the argument is a value and is not touched |
| QuoteList.WithoutIdSpec | dom-manipulation/script.js:242-251 | delete removes exactly the records with that id and keeps the rest in order |
| QuoteList.ClampIndexRange | dom-manipulation/script.js:262 | the clamped index is below the length, or -1 for an empty list; it is unchanged when already in range, and never negative for a non-empty list and index ≥ 0 |
| QuoteList.UpdateById | dom-manipulation/script.js:323-328 | same length; matching records get the fields and the rest are unchanged |
| QuoteList.UpdateByIdSpec | dom-manipulation/script.js:323-328 | other records are unchanged; matching ones carry the new fields and keep their id; updating twice is updating once |
| QuoteList.DedupSpec | dom-manipulation/script.js:419-421 | every value appears exactly once, in the order of its first occurrence |
| QuoteList.DistinctCategoriesSpec | dom-manipulation/script.js:419-421 | every stored category appears once, and no other |
| QuoteList.ByCategorySpec | dom-manipulation/script.js:446-451 | "all" gives a copy; any other category gives exactly its quotes in order |
| QuoteList.SearchFilterSpec | dom-manipulation/script.js:467-472 | the search throws exactly when some record makes the predicate throw; otherwise it keeps in order exactly the records whose text, author-or-"Unknown" or category contains the term |
| QuoteList.EmptySearchKeepsAll | dom-manipulation/script.js:464-472 | a blank term keeps every record when all have text |
| QuoteList.SearchIgnoresCase | dom-manipulation/script.js:469 | lower-casing a record's text does not change whether it matches |
| QuoteList.ClicksFirstRound | dom-manipulation/script.js:494-512 | from index 0, the k-th click shows position k during the first pass |
| QuoteList.ClicksCycle | dom-manipulation/script.js:494-512 | the shown positions repeat with period equal to the list length: k + length clicks show the same position as k clicks |
| QuoteBrowser.ShownQuote | dom-manipulation/script.js:134-142 | a quote is shown exactly when the index is inside the list, and it is a listed quote |
| QuoteBrowser.UpdateHidesEditedQuoteAsWritten | dom-manipulation/script.js:335-342 | as written, with one quote already shown once, the edited quote is in the list but the screen says there are none |
| QuoteBrowser.EditedQuoteShownIsListed | dom-manipulation/script.js:323-340 | when the quote being edited was in the displayed list, the edited quote is one of the reshuffled quotes, so the list is non-empty and showing the edit shows a listed quote |
| QuoteBrowser.Browser.constructor | dom-manipulation/script.js:37-44 | empty lists, index 0, no current quote |
| QuoteBrowser.Browser.ShowRandomQuote | dom-manipulation/script.js:134-158 | the quote at the index, when there is one, becomes current and is shown; otherwise the no-quotes message |
| QuoteBrowser.Browser.NewQuote | dom-manipulation/script.js:494-512 | a run-past index reshuffles the displayed list and restarts at 0; the quote at that position is shown and the index advances |
| QuoteBrowser.Browser.PopulateCategories | dom-manipulation/script.js:408-441 | a stored array's distinct categories replace the list; otherwise nothing changes |
| QuoteBrowser.Browser.DeleteDisplayed | dom-manipulation/script.js:222-278 | for the editable quote captured when the buttons were drawn, which may no longer be current: after a successful delete, both lists and storage lose the id, the shuffle is a permutation of the displayed list, and the index is clamped; a failed call changes nothing but the client queue |
| QuoteBrowser.Browser.UpdateCurrent | dom-manipulation/script.js:307-351 | blank text or category, or no current quote (a TypeError caught by the handler), changes nothing; a successful update rewrites the id's records in both lists and storage, reshuffles, and shows the edited quote (the corrected behaviour of the third finding); a failure changes nothing but the client queue |
| QuoteBrowser.Browser.FilterQuote | dom-manipulation/script.js:443-461 | the index restarts at 0; a stored array narrowed to the category becomes the displayed list, reshuffled; without an array nothing else changes, the screen included |
| QuoteBrowser.Browser.SearchQuotes | dom-manipulation/script.js:463-481 | the index restarts at 0; the stored records matching the trimmed lower-cased term become the displayed list, reshuffled; a throwing predicate changes nothing else, the screen included |
| QuoteBrowser.Browser.ImportFromJson | dom-manipulation/script.js:378-398 | bad file or storage changes nothing; a non-array file empties the displayed list and stops; otherwise the stored quotes plus the imports, numbered after the numeric maximum id (the corrected behaviour of the first finding), are saved, reshuffled and their categories listed |

## Left out

- DOM rendering and event wiring are not modelled. This covers every `innerHTML`/`document` use in `script.js`, the conflict notification and modal (`syncQuotes.js:247-365`), all of `notifications.js`, the export via Blob (`script.js:357-374`), and the FileReader plumbing of the import (`script.js:377-378`, `399`). The screen is reduced to the `displayed` quote.
- `fetch`, `AbortController` and `fetchWithTimeout` (`fetchQuotes.js:42-62`) are replaced by oracle parameters: success or failure, and the reply payload. `Date.now()` becomes a `now` parameter, one reading per call.
- Timers are not run:
  - the `setTimeout` retry of `syncQuotes` is reported as the `retryAfter` delay;
  - `startAutoSync`/`setInterval` (`syncQuotes.js:368-399`) is a later `SyncQuotes` call;
  - the 30-second health poll is the `HealthPoll` event.
- SyncOrchestrator.AfterFailure: computes the retry delay from the counter at the time of the failure. The timer reads `retryCount` when it fires (`syncQuotes.js:231`), so a manual sync in between would change the delay.
- Async interleaving is not modelled: every handler and operation runs to completion. The drain that `fetchQuotesFromServer` starts without awaiting (`fetchQuotes.js:118-120`) is modelled as finishing before the fetch returns.
- The concurrent pushes of `Promise.allSettled` (`syncQuotes.js:167-169`) all see the availability flag as it was at dispatch. Their failures are queued in dispatch order.
- Math.random: in the shuffle (`script.js:115`) is an arbitrary choice of `j` in `[0, i]`.
- JSON and the storage APIs:
  - The stored entry is one of: missing, unparsable, a non-array with its truthiness, or an array of records.
  - A record keeps only its five fields. A string field that is absent or not a string is `None`. The `editable` field is `None` when absent, and otherwise a `Flag`: a boolean, or any other JSON value with its truthiness.
  - Non-string truthy authors (which make `normalizeQuote` throw) and numeric ids are not modelled.
  - Array elements that are not objects are not modelled: every element of a stored or fetched array is a record. An element such as `null` or a number takes these paths in the code:
    - `validateQuote` rejects it through `quote &&` (`syncQuotes.js:44`).
    - In the server array, `serverQuotes.map((quote) => quote.id)` throws (`syncQuotes.js:65`). The round fails and a retry is scheduled.
    - In the local array, it gets through the merge. Storage is rewritten (`syncQuotes.js:153`), and then `localQuote.id` throws (`syncQuotes.js:163`). The round is reported failed, and `retryCount` goes up after storage has changed.
    - `showRandomQuote` shows "no quotes" for a falsy element (`script.js:135`).
    - The category list, the category filter and the search throw on it (`script.js:420`, `450`, `469`).
- A JSON string stored in `savedQuotes` would be spread into characters by `filterQuote("all")` (`script.js:448`). The model treats it like every other non-array: the handler throws.
- QuoteList.FindMaxIDAsWritten: requires every id to be a string of digits. Ids that do not read as numbers compare false with `-Infinity` (`script.js:61`), and that path is not modelled.
- JsString.ToLower: folds the ASCII letters only. Full Unicode case mapping is not modelled.
- QuoteBrowser.Browser.UpdateCurrent: models the corrected screen after an update, not the one as written. The model keeps the edited quote current and on screen. As written, `script.js:342` calls `showRandomQuote()`, which shows `shuffled[currentIndex]` of the fresh shuffle and makes that quote current; when the index is past the end it shows "no quotes" and keeps the edited quote current. `QuoteBrowser.UpdateHidesEditedQuoteAsWritten` exhibits the difference (third finding).
- QuoteBrowser.Browser.ImportFromJson: numbers the imports after the numeric maximum id, which is the corrected `findMaxID`. As written, `script.js:382-388` numbers them after the string-order maximum. The two agree when string order agrees with numeric order on the stored ids (`QuoteList.LexMaxIdAgreesWhenOrdered`). With stored ids "9" and "10" they differ: "11" against "10" (`QuoteList.ImportCollidesAsWritten`, first finding).
- RemoteClient.OfflineChoice: states the number and the ids of the built-in quotes (`fetchQuotes.js:4-35`). It does not state their texts, authors or categories, which appear only in the `FallbackQuotes` constant.
- The `syncQuotes` result object has no `pushedCount` (`syncQuotes.js:208-212`). `Synced` carries the three counts of the `quotesUpdated` event detail (`syncQuotes.js:185-193`).
- `sessionStorage` is not modelled: the saved current quote (`script.js:87-102`, `147-155`).
- These handlers of `script.js` are not modelled:
  - `loadQuotes` (`script.js:69-106`);
  - `createAddQuoteForm` (`script.js:160-213`);
  - the edit-form dropdown (`script.js:291-302`).
  They only fill the state that the modelled handlers use.
- The server re-fetch that `editDeleteQuote` runs on every display (`script.js:157`, `216`) is not part of the handlers. In the code it:
  - sets `isServerAvailable` (`fetchQuotes.js:115`, `125`);
  - may start a queue drain (`fetchQuotes.js:118-120`);
  - replaces `serverQuotes` wholesale.
  The model treats it as a separate, later `RemoteClient.Client.FetchQuotesFromServer` event whose result overwrites `serverQuotes`. So `NewQuote`, `ShowRandomQuote`, `FilterQuote`, `SearchQuotes`, `DeleteDisplayed` and `UpdateCurrent` leave the client state and `serverQuotes` as their own code leaves them.
- Module-linking defects are noted but not modelled:
  - `syncQuotes.js:8-15` imports helpers that `notifications.js` does not export;
  - `script.js:1` redeclares `serverURL`, which it also imports at line 8.

## Findings

| source | as written | input that shows it | evidently intended | confidence | as-written member | corrected member |
|---|---|---|---|---|---|---|
| dom-manipulation/script.js:53-66 | `findMaxID` compares string ids with `>`, which is string order after the first id, so the maximum can be the wrong id | stored ids "9" and "10", then an import of one quote: `findMaxID` gives "9" and the imported quote gets id "10", a duplicate | number the import after the numeric maximum: the import gets "11" | high (not executed) | QuoteList.ImportCollidesAsWritten | QuoteList.ImportIdsFresh |
| dom-manipulation/fetchQuotes.js:89-97 | `for...of` walks the live `requestQueue`; a failed replay queues a copy of itself, which the loop visits later | one queued delete while the server is marked down (as after a failed push in `syncQuotes`): every iteration fails fast and appends one more entry, so the loop never ends | replay a snapshot of the queue, then drop the entries that succeeded | high (not executed) | RemoteClient.LiveDrainOneFailedDelete | RemoteClient.DrainKeepsFailedInOrder |
| dom-manipulation/script.js:335-342 | after an update, `showRandomQuote` shows `shuffled[currentIndex]` of the fresh shuffle instead of the edited quote | one quote, shown once (index 1), then edited: the edited quote is in the list, but the screen says "There are no quotes to display." | show the edited quote, as the comment before `showRandomQuote` says | medium (not executed) | QuoteBrowser.UpdateHidesEditedQuoteAsWritten | QuoteBrowser.Browser.UpdateCurrent |

The corrected behaviours are the ones the rest of the model uses:

- `Browser.ImportFromJson` numbers the import with `FindMaxID`.
- `Client.ProcessQueuedRequests` replays a snapshot of the queue.
- `Browser.UpdateCurrent` shows the edited quote.
