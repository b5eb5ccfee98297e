# Verification model of the mail tagger

The mail tagger polls Gmail accounts, has a language model classify each new message, puts the label of
the category on it and records it. This project models that pipeline as a state machine over its store
and the mailbox, together with the retry engine, the two caches and the text and codec code around it,
and proves what whole runs guarantee.

The model has two layers. `AccountModel` describes one account on values: a state, and functions for a
message, a batch, a tick, a crash and an administrative step. Gmail, the language model, the clock and
every failing write are inputs, so a statement over all inputs is one over everything the world may do.
`Store`, `GmailServer`, `HistorySync`, `Pipeline` and `TokenSource` hold classes over shared tables and
mutable fields in the form of the program; their methods are proved equal to that description, account by
account. The statements about runs are proved on the description:

- `LabelOnce`, `Interleaving`, `LabelGuard`: how often a message can be labelled (a potential that no step lowers).
- `Labelling`: which labels end up on messages.
- `Accounting`, `NoLoss`, `Losses`, `TableHistory`: what becomes of every fetched id, which messages a run
  misses, and what the tables then show.
- `DuplicateBatch`, `RetriedListing`: ids that retried listings left twice.
- `CursorSound`: the stored cursor.
- `Labels`, `LabelProperties`, `StuckLabel`: the label cache in front of Gmail's label table.
- `TokenSource`: the token cache in front of the stored token.
- `Outcomes`, `RateLimitText`: how a message, a turn, a fetch and a tick end, and which errors count as a rate limit.
- `RetryEngine`, `Backoff`, `Decimal`, `HistoryProperties`: retries, delays, listings under retry.
- `Base64`, `OAuthState`, `ReplyText`, `Spaces`, `CleanText`, `MimeTree`: decoding, signed state, bodies.

`dafny verify dfyconfig.toml` checks the whole project.

## Where code and documentation part

- internal/pipeline/pipeline.go:250 says that a cancelled loop saves what was processed so far. At least one
  id is left then (`CancelledLeavesOne`), and the cursor it saves is that of the whole fetched batch
  (`CursorPassesOverUnrecorded`). `MissedExactly` says which messages that costs; `CancelledTickMissesAll`
  and `SomeMessageIsMissed` are runs in which it does.
- internal/pipeline/pipeline.go:526-527 says that the AI labels should be cached when an account is
  initialised. Nothing in the program does so; `aiLabels` is a parameter here, empty or not. With it filled
  a message is labelled once (`GuardedLabelledAtMostOnce`), without it the bound is that of
  `LabelledAtMostOnce`.
- internal/gmail/labels.go:116-117 says that a label is created if it does not exist. It is created if the
  cache does not give it, for whatever reason (`CreatesExactly`); if Gmail has it, the create is refused.
- internal/gmail/labels.go:43 says that the label cache should be synced on startup. Nothing in the program
  does so. A label that Gmail has and the cache lacks, be it after a failed cache write or because the user
  made it, therefore stays unusable for good, and every message classified to it is passed over
  (`StuckForGood`, `StuckLabelIsPassedOver`).
- internal/gmail/ratelimit.go:178-179 says that a Retry-After is respected. It is, up to maxDelay, exactly as
  far as `HeaderHonouredExactly` says; larger ones wrap to no wait (`HugeHeaderDoesNotWait`) or to a short
  one (`HugeHeaderWaitsBriefly`).
- internal/pipeline/pipeline.go:538 says that rate-limit errors of the LLM provider are recognised. So is
  every failed GetMessage for an id with 429 in it (`FailedGetExactly`, `SomeIdReadsAsRateLimit`).
- internal/gmail/body.go:160-161 says that everything after a reply marker is removed. Trimming can bare
  a marker that stays (`StripTwiceExactly`, `StrippingTwiceCanDiffer`).
- internal/gmail/body.go:94 and 200 promise a maximum length. The dots come on top of it: it is kept exactly
  as `KeepsLimitExactly` says, once for each of the two, and `LimitCanBeExceeded` shows where it is not.
  Below a limit of 99 the first of the two can panic (`PanicsExactly`, `SomeMessagePanics`).

## Model

| member | source | states |
|---|---|---|
| `MailPipeline.Pipeline.Tick` | internal/pipeline/pipeline.go:145-196 | every account that had its turn ends exactly as if the tick had been for it alone (its rows, cursor, labels and mailbox depend on its own state and inputs), the others are untouched; without an error from the listing or a cancellation every account has its turn, whatever becomes of the others and in whatever order |
| `MailPipeline.Pipeline.ProcessOneAccount` | internal/pipeline/pipeline.go:202-299 | the loop with its two cancellation exits, the throttle and the cursor write refine the specification of one account over values; no other account changes |
| `MailPipeline.Pipeline.ProcessBatch` | internal/pipeline/pipeline.go:245-289 | the counter, the early exit and the final tables are those of the recursive specification of a batch |
| `MailPipeline.Pipeline.ProcessTurn` | internal/pipeline/pipeline.go:247-288 | one message with the cancellation check, the pause after a rate limit, the single second attempt and the cancellation during the pause |
| `MailPipeline.Pipeline.ProcessOne` | internal/pipeline/pipeline.go:324-435 | skip check, fetch, classification, dry run, category without a label, label, record: state and error on every path, for this account alone |
| `MailPipeline.Pipeline.LabelAndRecordMessage` | internal/pipeline/pipeline.go:409-424 | label id, then AddLabels, then the record, stopping at the first error; what had been done before it stays |
| `MailPipeline.Pipeline.ShouldSkipMessage` | internal/pipeline/pipeline.go:486-524 | an error, one of the two reasons to skip, or none, in the order in which they are looked for, from the tables and the labels on the message |
| `MailPipeline.Pipeline.LabelFromManager` | internal/pipeline/pipeline.go:409-414 | the label manager made for this account works on its cache and label table and on no other |
| `MailPipeline.Pipeline.Fetch` | internal/pipeline/pipeline.go:303-321 | no ids without a cursor; from a good cursor, one that parses and a canonical one back; ids and cursor are those of the specification |
| `MailPipeline.Pipeline.SaveCursor` | internal/pipeline/pipeline.go:291-296 | the cursor is written when the new one is neither empty nor the one read when the tick began; a failed write leaves it |
| `Outcomes.EarlyEnd` | internal/pipeline/pipeline.go:331-391 | from the inputs: the calls before the classifier and the classifier itself, the first that fails gives the error, behind the words of its own call or, for the classifier, as it is; a row, an AI label and a dry run end without an error; nothing is written |
| `Outcomes.EndWithoutLabel` | internal/pipeline/pipeline.go:394-407 | a category without a label: the message is recorded, or the record's error comes back and nothing is written |
| `Outcomes.EndWithLabel` | internal/pipeline/pipeline.go:409-434 | a category with a label: the first of label, AddLabels and record that fails gives the error, and what was written before stays; without one the label is on the message and the row is there |
| `Outcomes.LabelErrorExactly` | internal/gmail/labels.go:87-127 | the error of a label is that of the retried create or of its cache write, behind the manager's words |
| `Outcomes.FailedClassification` | internal/pipeline/pipeline.go:259-287 | a failed classification counts for nothing unless it reads as a rate limit; then, after the pause, the second attempt decides, and a cancellation during the pause ends the loop |
| `Outcomes.SecondAttemptExactly` | internal/pipeline/pipeline.go:259-287 | whichever call gave it, an error that reads as a rate limit, and no other, leads to the pause and the second attempt |
| `Outcomes.TooManyRequests` | internal/pipeline/pipeline.go:539-549 | a provider's 429 Too Many Requests is such an error |
| `Outcomes.OneTurnMore` | internal/pipeline/pipeline.go:245-289 | one more id at the end of a batch has its turn after all others, on what they left, unless the loop was cancelled by then |
| `Outcomes.FirstFetchExactly` | internal/pipeline/pipeline.go:304-312 | without a cursor: no ids and the position of the mailbox, or one of two errors |
| `Outcomes.FetchExactly` | internal/pipeline/pipeline.go:314-320 | with a cursor: what the listing delivered and the id it named, else the cursor; after a bare 404 the full listing and the position; or the error of the first call that fails |
| `Outcomes.TickErrorExactly` | internal/pipeline/pipeline.go:202-299 | the error of an account's tick: the first call that fails, the cancellation of the loop, or the cursor write's |
| `MailPipeline.Pipeline.CacheAILabelIDs` | internal/pipeline/pipeline.go:528-536 | afterwards the entry holds exactly the ids of the labels whose name begins with AI/ |
| `MailPipeline.Pipeline.ResetCursorOf` | internal/admin/handler.go:199-211 | resets one cursor and, if asked to, deletes that account's rows; an error exactly if the reset fails or the deletion that was asked for does; a failed reset deletes nothing and no other account changes |
| `MailPipeline.Pipeline.CollectGarbage` | internal/store/store.go:101-110 | in every account exactly the rows older than the cutoff go |
| `LabelOnce.LabelledAtMostOnce` | internal/pipeline/pipeline.go:331-424 | in every run of ticks, retries, cancellations, crashes, resets, clears, collections and edits in Gmail: successful labellings of a message are at most 1 + failed record writes after a label + deletions of its row (and sharper, counting the row at both ends) |
| `LabelOnce.StepKeepsPotential` | internal/pipeline/pipeline.go:324-435 | the potential behind it (row + failed records + deletions - labellings) is not lowered by any step of any kind |
| `LabelOnce.BoundIsAttained` | internal/pipeline/pipeline.go:417-424 | the bound cannot be improved: for every n some batch fails n records and labels the message n + 1 times |
| `LabelGuard.GuardedLabelledAtMostOnce` | internal/pipeline/pipeline.go:496-524 | with the ids of all configured labels among the AI labels, and nobody taking labels off: at most one labelling in every run, whatever record writes fail and rows are deleted, and none if the message carried such a label |
| `Interleaving.LabelledAtMostOnceInterleaved` | internal/pipeline/pipeline.go:331-424 | the same bound when admin requests, collections and edits come between any two calls that the pipeline makes |
| `Interleaving.TakeKeepsOwed` | internal/pipeline/pipeline.go:486-507 | one atomic call of the pipeline, or anything that may come between two, keeps the invariant of the interleaved machine |
| `Interleaving.MessageIsMicroRun` | internal/pipeline/pipeline.go:324-435 | what processing a message does is one run of those atomic calls |
| `Interleaving.RowsMatchLogInterleaved` | internal/pipeline/pipeline.go:331-424 | rows and log agree in both directions whatever comes between any two calls of the pipeline |
| `Labelling.RecordedMeansLabelled` | internal/pipeline/pipeline.go:362-424 | an id that a tick records was classified, and at the end of the tick its message carries Gmail's label for the category, unless none is configured; the second attempt's category exactly if the first ended in a rate-limit error |
| `Labelling.MessageLabels` | internal/pipeline/pipeline.go:324-435 | one message: no label is taken off, only labels of configured categories are put on, and success with a record means the category's label is there |
| `Labelling.OnlyCategoryLabelsAreAdded` | internal/pipeline/pipeline.go:409-419 | in every run of ticks, crashes and admin requests no label is taken off any message and every label put on one is Gmail's label for a configured category |
| `Accounting.TickIsAccounted` | internal/pipeline/pipeline.go:224-299 | every fetched id gets exactly one fate, in order; returned count + failed + not reached + throttled = fetched, through the retry and both cancellation exits; outside dry run every counted id is recorded or carries an AI label |
| `Accounting.ThrottledExactly` | internal/pipeline/pipeline.go:226-238 | an id is throttled exactly if as many as the limit come before it: 50 by default, none for a limit of zero or less |
| `Accounting.BatchIsAccounted` | internal/pipeline/pipeline.go:245-289 | the counter of the loop is the number of ids done with, and there is one fate for every id |
| `RateLimitText.FailedGetExactly` | internal/pipeline/pipeline.go:539-549 | a GetMessage that fails counts as a rate limit exactly if its error does by itself, or the id of the message has one of the phrases in it |
| `RateLimitText.FailedFetchIsTriedAgain` | internal/pipeline/pipeline.go:259-281 | so a message with 429 in its id gets the pause and the second attempt when its first fetch fails |
| `RateLimitText.SomeIdReadsAsRateLimit` | internal/pipeline/pipeline.go:539-549 | 18f4290000000000 is such an id |
| `RateLimitText.PhrasesExactly` | internal/pipeline/pipeline.go:544-548 | the five phrases that make a text a rate limit |
| `RateLimitText.CapitalsReadAlike` | internal/pipeline/pipeline.go:543-543 | in capitals or not |
| `Accounting.BatchFateAt` | internal/pipeline/pipeline.go:245-289 | fate number i belongs to id number i, and the row or label it speaks of is still there when the batch ends |
| `Accounting.DryRunWritesOnlyTheCursor` | internal/pipeline/pipeline.go:381-392 | a dry run writes no row, label or cache entry, and still moves the cursor past what it previewed |
| `Growth.BatchGrows` | internal/pipeline/pipeline.go:245-289 | while a batch runs, rows and labels on messages are only added and the cursor stays |
| `NoLoss.MissedExactly` | internal/pipeline/pipeline.go:202-321 | whatever fails: the messages missed between first and highest cursor are exactly those dropped (failed, throttled, left by a cancellation, previewed) or fallen into the gap of a reset or a fallback, less those that another entry handled; on the tables: one that was not missed has its row, or had one that was deleted, or carried an AI label, and one that was missed has no row but one from before the run |
| `NoLoss.NothingIsLost` | internal/pipeline/pipeline.go:202-321 | without a reset and an expired cursor, every message between first and highest cursor that was not dropped was handled, and the tables show it: its row, or a deletion of its row, or an AI label it carried; crashes and failed cursor writes included |
| `NoLoss.RunKeepsCovered` | internal/pipeline/pipeline.go:202-321 | the invariant of every run against an honest mailbox: the stored cursor is the highest so far or empty, and every message up to it has a fate or lies in a gap |
| `NoLoss.HonestFetch` | internal/gmail/history.go:27-149 | one fetch from a mailbox that lists every message added since the cursor brings a cursor no lower than before and every message in between, except those that arrive between the full listing and the profile call, or that a reset skipped |
| `TableHistory.RowsMatchLog` | internal/pipeline/pipeline.go:331-424 | in every reachable state, crashes included: what was recorded, or skipped as recorded, has its row unless a later collection or clear deleted it; and a row is there only from a record, or from before the run, without a deletion since |
| `TableHistory.SkippedForLabel` | internal/pipeline/pipeline.go:502-504 | in every run a message skipped for an AI label carried one when the tick or crash that skipped it ended |
| `Losses.CursorPassesOverUnrecorded` | internal/pipeline/pipeline.go:291-296 | after a successful cursor write the cursor stands past the whole fetched batch, and a row is there exactly for ids that had one or were recorded |
| `Losses.CancelledLeavesOne` | internal/pipeline/pipeline.go:245-257 | a loop that sees the cancellation leaves at least one id undone |
| `Losses.CancelledTickMissesAll` | internal/pipeline/pipeline.go:248-255 | a tick cancelled before its first message that saves its new cursor misses every message up to it: no row, no label |
| `Losses.SomeMessageIsMissed` | internal/pipeline/pipeline.go:248-255 | a run, against an honest mailbox, in which a message is missed |
| `Losses.FirstTickStartsTracking` | internal/pipeline/pipeline.go:304-312 | the first tick processes nothing, stores where the mailbox stands, and from there the invariant holds |
| `DuplicateBatch.DuplicatesAreHarmless` | internal/pipeline/pipeline.go:246-289 | a batch outside dry run in which every message counts ends in the same rows, label cache, label table and labels as with only first occurrences kept |
| `RetriedListing.RetriedListingIsHarmless` | internal/pipeline/pipeline.go:202-299 | a tick whose listing was retried ends with the same rows, caches, labels and cursor as one whose listing succeeded at once, for a stable listing and the same answers for each message, if every message of the first counts; then every message of the second does |
| `DuplicateBatch.DropSettled` | internal/pipeline/pipeline.go:331-341 | entries for an id that already has its row or an AI label can be left out anywhere |
| `DuplicateBatch.EveryIdIsKept` | internal/pipeline/pipeline.go:246-246 | keeping first occurrences keeps every id |
| `DuplicateBatch.NoIdIsKeptTwice` | internal/pipeline/pipeline.go:246-246 | and keeps each one once |
| `CursorSound.CursorAlwaysGood` | internal/pipeline/pipeline.go:292-296 | in every reachable state, whatever Gmail answers, the stored cursor is empty or the canonical decimal of a uint64, and parses |
| `CursorSound.CursorFollowsFetch` | internal/pipeline/pipeline.go:292-296 | after a fetch and a cursor write without errors the stored cursor is the one the fetch brought, whatever became of the messages |
| `CursorSound.CursorNeverLowered` | internal/pipeline/pipeline.go:292-296 | against a mailbox whose history id does not go back as time passes, and was at the first cursor or past it, the stored cursor does not decrease between any two points of a run without a reset between them |
| `CursorSound.ResetDuringTickExactly` | internal/pipeline/pipeline.go:292-296 | a reset before, between or after the turns of a tick leaves the tables as they would be without it, and the cursor is empty afterwards exactly if the tick did not write one; else the reset is overwritten |
| `Decimal.ParseUintOfPrint` | internal/gmail/history.go:33-36 | a printed history id parses back to itself, and no larger number parses |
| `Decimal.SomeNumbers` | internal/gmail/history.go:33-36 | decimal digits, the most significant first; a sign or a letter is no unsigned number |
| `HistorySync.Client.SyncSince` | internal/gmail/history.go:27-85 | the retried listing, the fallback on 404 and the default for a missing id refine the specification over all delivered pages |
| `HistorySync.Client.BootstrapMailbox` | internal/gmail/history.go:116-149 | the full listing first, the history id after it, with both error paths |
| `HistorySync.Client.GetCurrentHistoryID` | internal/gmail/history.go:91-110 | succeeds exactly if the retried call does and the profile has an id, and then returns the canonical text that parses back to that id |
| `HistorySync.HistoryResult.OnHistoryPage` | internal/gmail/history.go:51-67 | a page appends the ids of its added messages in order, leaving out missing ones, and overwrites the next id only if it names one |
| `HistorySync.HistoryResult.OnMessagePage` | internal/gmail/history.go:127-134 | a page appends its non-empty ids in order |
| `HistorySync.HistoryResult.OnHistoryCall` | internal/gmail/history.go:50-68 | one call of the listing adds to what earlier calls left in the result |
| `HistoryProperties.InHistoryExactly` | internal/gmail/history.go:51-59 | the ids of a history listing are exactly those, not empty, of the messages that some record of some page adds |
| `HistoryProperties.OneRecordId` | internal/gmail/history.go:54-57 | one entry gives its id, unless the message or its id is missing |
| `HistoryProperties.RecordIdsJoin` | internal/gmail/history.go:54-58 | the entries of a record give their ids in order, each as often as it stands there |
| `HistoryProperties.RecordsIdsJoin` | internal/gmail/history.go:53-59 | and so do the records of a page |
| `HistoryProperties.InListingExactly` | internal/gmail/history.go:128-132 | the ids of a full listing are exactly those, not empty, on its pages |
| `HistoryProperties.NonEmptyIdsJoin` | internal/gmail/history.go:128-132 | in order, each as often as it stands there |
| `HistoryProperties.NextIdExactly` | internal/gmail/history.go:61-64 | the next id is that of the last page which names one |
| `HistoryProperties.SyncReturnsListing` | internal/gmail/history.go:38-68 | for every pattern of mid-page failures that ends in success: page-aligned prefixes of a stable listing, then all of it; so exactly the ids its records add, at most maxRetries + 1 times as many |
| `HistoryProperties.BootstrapExactlyOnNotFound` | internal/gmail/history.go:70-75 | the fallback is entered exactly when the last call of the listing failed with a bare 404 |
| `HistoryProperties.SyncKeepsCanonical` | internal/gmail/history.go:62-82 | a canonical cursor parses, and the cursor that comes back is canonical |
| `RetryEngine.DoWithOp` | internal/gmail/ratelimit.go:82-129 | the loop over attempts and lastErr makes the calls, takes the delays and returns the error of the recursive retry discipline |
| `RetryEngine.RetryContract` | internal/gmail/ratelimit.go:82-129 | at most maxRetries + 1 calls, all but the last failed retryably, success exactly if the last call succeeded, a non-retryable error comes back as it is, a bare API error only from the last call |
| `RetryEngine.RunStopsAt` | internal/gmail/ratelimit.go:82-129 | calls, delays and error of a run in full: it goes on through every attempt that fails retryably, sleeping its backoff, and stops at the first other one |
| `RetryEngine.RetryableExactly` | internal/gmail/ratelimit.go:156-175 | behind any number of wraps an error is retryable exactly for 429 and 5xx |
| `RetryEngine.DelayOfRun` | internal/gmail/ratelimit.go:116-125 | the i-th delay is the backoff for the i-th reply |
| `RetryEngine.HeaderlessDelays` | internal/gmail/ratelimit.go:116-125 | in a run without usable headers the i-th delay is base * factor^i rounded down, at most maxDelay, and there is one after every call but the last |
| `RetryEngine.SleepIsBounded` | internal/gmail/ratelimit.go:85-126 | the time slept in a run, a negative delay counting as none, is at most maxRetries * maxDelay, whatever headers it meets |
| `RetryEngine.HeaderlessSleep` | internal/gmail/ratelimit.go:85-126 | without headers the time slept is at most the geometric sum |
| `Backoff.HeaderlessDelay` | internal/gmail/ratelimit.go:207-215 | the exponential delay is min(base * factor^k, maxDelay) rounded down, not negative, and does not shrink with k |
| `Backoff.DelayWithoutHeader` | internal/gmail/ratelimit.go:180-216 | without a header, or with one that is neither a positive number nor a date, the delay taken is min(base * factor^attempt, maxDelay) rounded down |
| `Backoff.DoublingDelays` | internal/gmail/ratelimit.go:207-215 | one second doubled: eight seconds after the fourth 503, a minute after the seventh |
| `Backoff.HeaderBehindWraps` | internal/gmail/ratelimit.go:182-184 | the header is that of the API error behind any number of wraps, and an error of another kind has none |
| `Backoff.DelayInRange` | internal/gmail/ratelimit.go:180-216 | never above maxDelay; negative exactly if the header's seconds, in nanoseconds modulo 2^64, lie in the upper half |
| `Backoff.HeaderIsHonoured` | internal/gmail/ratelimit.go:184-192 | a Retry-After whose nanoseconds fit an int64 is honoured up to maxDelay (section 10.2.3 of RFC 9110) |
| `Backoff.HeaderHonouredExactly` | internal/gmail/ratelimit.go:184-192 | a header of some seconds is honoured up to maxDelay exactly if its nanoseconds fit an int64, or reduced to one still come to maxDelay or more |
| `Backoff.HugeHeaderDoesNotWait` | internal/gmail/ratelimit.go:186-191 | from 2^63 to 2^64 nanoseconds the delay comes out negative |
| `Backoff.HugeHeaderWaitsBriefly` | internal/gmail/ratelimit.go:186-191 | 18446744074 seconds wrap to a delay of 0.29 seconds |
| `Backoff.DateIsHonoured` | internal/gmail/ratelimit.go:193-203 | a date is waited for up to maxDelay, and one that is past asks for the base delay, up to maxDelay |
| `Backoff.GeometricClosedForm` | internal/gmail/ratelimit.go:207-215 | the sum of the uncapped delays times (factor - 1) is base * factor^n - base |
| `GmailServer.LabelManager.GetOrCreate` | internal/gmail/labels.go:118-127 | cache first; any error of the cache, not only a missing label, leads to a create |
| `GmailServer.LabelManager.Create` | internal/gmail/labels.go:87-114 | one request per call of the retry loop, then the cache write; state and reply on every path |
| `GmailServer.LabelManager.SendRequests` | internal/gmail/labels.go:98-102 | Gmail's table and the id in the last reply after any number of retried requests, lost replies included |
| `GmailServer.LabelManager.SyncAllLabels` | internal/gmail/labels.go:45-67 | the cache after a sync, and after one that fails at some label |
| `LabelProperties.CacheSoundInEveryRun` | internal/gmail/labels.go:45-127 | in every reachable state each cached name has Gmail's id, and neither table loses or changes an entry |
| `LabelProperties.UseIsSound` | internal/gmail/labels.go:87-127 | one use keeps the cache sound, and an id that is returned is Gmail's and cached |
| `LabelProperties.SyncIsSound` | internal/gmail/labels.go:45-67 | a sync keeps the cache sound, and one without an error makes it complete |
| `LabelProperties.OneIdPerName` | internal/gmail/labels.go:118-127 | all successful uses of a name in a run return one id |
| `LabelProperties.CreatesExactly` | internal/gmail/labels.go:118-127 | in every run a use asks Gmail to create a name exactly if the cache cannot be read, or the name was not cached at the start and no step since wrote it there: no create that arrived and was cached, no sync that got that far |
| `LabelProperties.CreateSucceedsExactly` | internal/gmail/labels.go:98-106 | a create succeeds exactly if Gmail lacks the name and some request within the retries arrives and is answered, after none but failures that never reached Gmail |
| `LabelProperties.SecondCreateNeedsFailure` | internal/gmail/labels.go:118-127 | a use asks for a create after an earlier use of the name only if the cache cannot be read, or the earlier one asked for a create that did not succeed or whose cache write failed |
| `LabelProperties.CreateAfterFailedCreate` | internal/gmail/labels.go:118-127 | a run with a second create after a failed one; it succeeds |
| `LabelProperties.CreateAfterFailedWrite` | internal/gmail/labels.go:107-111 | a run with a second create after a failed cache write; it is refused |
| `LabelProperties.CreateAfterFailedRead` | internal/gmail/labels.go:118-127 | a run with a second create because the cache cannot be read; it is refused |
| `LabelProperties.UncachedLabelIsRefused` | internal/gmail/labels.go:87-114 | a label Gmail has and the cache lacks cannot be used: the request is refused as a conflict and nothing changes |
| `LabelProperties.LostCacheWriteSticks` | internal/gmail/labels.go:107-111 | so after a failed cache write every use of that name fails until a sync |
| `LabelProperties.FailedWriteLeavesLabelUncached` | internal/gmail/labels.go:107-111 | how a label gets into that state |
| `StuckLabel.StuckForGood` | internal/pipeline/pipeline.go:409-414 | in every run of the pipeline and the admin server a label that Gmail has and the cache lacks stays uncached |
| `StuckLabel.StuckLabelIsPassedOver` | internal/pipeline/pipeline.go:409-414 | after any such run no tick records a message that is classified to a category with that label |
| `StoreTables.Store.InsertAccount` | internal/store/accounts.go:24-39 | a new row with an empty cursor under a new id, unless the insert fails or the email is taken; an error after the insert, of its id or of reading it back, comes with the row inserted |
| `StoreTables.Store.GetAccountByEmail` | internal/store/accounts.go:59-73 | the row with that email, or not found exactly if there is none |
| `StoreTables.Store.ListAccounts` | internal/store/accounts.go:76-101 | every account once, as stored, ordered by email |
| `StoreTables.Store.UpdateHistoryID` | internal/store/accounts.go:104-114 | writes the cursor of that account and nothing else; no error for an unknown account |
| `StoreTables.Store.UpdateToken` | internal/store/accounts.go:117-127 | writes the token of that account and nothing else |
| `StoreTables.Store.ResetHistoryID` | internal/store/accounts.go:151-168 | empties that cursor; an unknown account is an error |
| `StoreTables.Store.ResetAllHistoryIDs` | internal/store/accounts.go:172-186 | empties every cursor and returns how many were not empty |
| `StoreTables.Store.DeleteProcessedMessages` | internal/store/accounts.go:190-202 | deletes exactly that account's rows and returns how many |
| `StoreTables.Store.DeleteAllProcessedMessages` | internal/store/accounts.go:206-216 | deletes all rows and returns how many |
| `StoreTables.Store.InsertProcessedMessage` | internal/store/processed_messages.go:17-27 | adds the row once; a row that is there keeps its time; other accounts keep theirs |
| `StoreTables.Store.ProcessedMessageExists` | internal/store/processed_messages.go:30-42 | whether the account has the row |
| `StoreTables.Store.GarbageCollectProcessedMessages` | internal/store/processed_messages.go:46-61 | deletes exactly the rows older than the cutoff, in every account, and returns how many |
| `StoreTables.Store.GetLabel` | internal/store/labels.go:20-37 | the cached id, or an error |
| `StoreTables.Store.UpsertLabel` | internal/store/labels.go:40-53 | overwrites the entry of that account and name and no other |
| `TokenSource.StoreTokenSource.Token` | internal/gmail/auth.go:64-113 | cache, stored token and reply after a call with any failures; the same accounts, of the own row only the token changes, of the others nothing |
| `TokenSource.StoreTokenSource.SaveToken` | internal/gmail/auth.go:116-135 | stores the encrypted token exactly if marshalling, encryption and the write succeed |
| `TokenSource.TokenExactly` | internal/gmail/auth.go:68-112 | the cached token if it is valid; else the stored one, then cached, if it is valid; else the refreshed one, then stored and cached |
| `TokenSource.FailsExactly` | internal/gmail/auth.go:73-107 | a call fails, and changes nothing, exactly if the cached token is no good and the stored one cannot be read, or has expired and cannot be refreshed, encoded and written |
| `TokenSource.NoExpiredToken` | internal/gmail/auth.go:68-112 | what comes back was valid when it was looked at, or has just been refreshed |
| `TokenSource.CacheNeverAheadOfStore` | internal/gmail/auth.go:64-135 | with one writer, after any calls with any failures: the cached token is none or the decrypted stored one, and a token that is returned is stored by then |
| `TokenSource.StaleExactlyWhileCachedIsValid` | internal/gmail/auth.go:68-71 | with other writers a call returns a token other than the stored one exactly while its cached one is valid and another was stored since |
| `Base64.DecodeBodyRoundTrip` | internal/gmail/body.go:73-88 | decoding undoes unpadded base64url, padded base64url and unpadded standard base64 on all byte strings: no decoder tried earlier takes one encoding for another value (sections 3.2, 4 and 5 of RFC 4648) |
| `Base64.PaddedStandardExactly` | internal/gmail/body.go:73-88 | the fourth form decodes, and then rightly, exactly when it needs no padding or has neither of the two characters that differ |
| `Base64.RawRoundTrip` | internal/gmail/body.go:75-75 | the unpadded decoder undoes the unpadded encoder in both alphabets |
| `Base64.PaddedRoundTrip` | internal/gmail/body.go:78-78 | the padded decoder undoes the padded encoder in both alphabets |
| `Base64.StandardIsNoUrl` | internal/gmail/body.go:75-82 | a text with a plus or a slash is no base64url, padded or not |
| `Base64.AlphabetTables` | internal/gmail/body.go:73-88 | the alphabets are those of tables 1 and 2 of RFC 4648 |
| `Base64.StandardVectors` | internal/gmail/body.go:73-88 | three of the vectors of section 10 of RFC 4648 |
| `OAuthState.Validate` | internal/http/oauth_state.go:55-102 | the backward scan finds the last dot, and the answer is that of the checks on both halves in their order; without a dot it is a missing separator |
| `OAuthState.ValidateOfSign` | internal/http/oauth_state.go:30-102 | for every key, email and lifetime: the email comes back up to signing + TTL, and from signing + TTL + 1 s on the state has expired; exactly, until the second of expiry is over |
| `OAuthState.PrintedSplits` | internal/http/oauth_state.go:45-65 | the last dot is the separator and both halves decode to what was printed |
| `OAuthState.AcceptsExactly` | internal/http/oauth_state.go:63-101 | any text at all is accepted exactly if it carries a payload with its MAC and an unexpired state |
| `OAuthState.OtherKey` | internal/http/oauth_state.go:78-84 | under another key a signed state is accepted exactly if that key gives the payload the same MAC, and has not expired |
| `OAuthState.ExpiryIsFinal` | internal/http/oauth_state.go:92-95 | what has expired stays expired |
| `ReplyText.StripQuotedReply` | internal/gmail/body.go:181-198 | the loop over the patterns with earliestIndex cuts at the first marker of any pattern, then trims |
| `ReplyText.Earliest` | internal/gmail/body.go:183-189 | for any list of patterns: where the first match of any of them begins, else the length |
| `ReplyText.StripsToLongestPrefix` | internal/gmail/body.go:181-198 | what stays is the trim of the longest prefix of whole lines in which no marker begins |
| `ReplyText.OrderIsIrrelevant` | internal/gmail/body.go:162-189 | any two lists of the same patterns give the same cut |
| `ReplyText.RulesExactly` | internal/gmail/body.go:175-177 | the two rules match exactly a line of three or more of the one character |
| `ReplyText.OnWroteExactly` | internal/gmail/body.go:164-164 | the first pattern matches exactly a line that begins with On, ends with wrote: and has something between |
| `ReplyText.FromHeaderExactly` | internal/gmail/body.go:174-174 | the From pattern matches exactly if anything but newlines follows, on whatever line |
| `ReplyText.OriginalMessageExactly` | internal/gmail/body.go:166-166 | the second pattern matches exactly dashes, white space, the words, white space, dashes and the end of the line, read from left to right |
| `ReplyText.DateWroteExactly` | internal/gmail/body.go:170-170 | the fourth matches exactly a line that ends with wrote: and has four digits inside what comes before |
| `ReplyText.AllPatternsAreTried` | internal/gmail/body.go:162-178 | all eight are tried |
| `ReplyText.NoMarkerInGreeting` | internal/gmail/body.go:162-178 | none matches in Hello Bob |
| `ReplyText.AddressIsSubsumed` | internal/gmail/body.go:164-172 | wherever the fifth pattern matches, the first does |
| `ReplyText.FifthPatternAddsNothing` | internal/gmail/body.go:162-178 | dropping the fifth pattern changes no result |
| `ReplyText.StripTwiceExactly` | internal/gmail/body.go:191-197 | stripping twice differs from once exactly if blanks at the edge of a line hide a marker of the body: those before the first line of the part before its first marker, or those after its last line |
| `ReplyText.CleanEdgesStripOnce` | internal/gmail/body.go:191-197 | a body with no white space but newlines at the edges of its lines is stripped once and for all |
| `ReplyText.StrippingTwiceCanDiffer` | internal/gmail/body.go:191-197 | "  > x" is such a body |
| `Spaces.TrimSpaceKeeps` | internal/gmail/body.go:197-197 | trimming keeps one slice, white space lies on both sides of it and at neither end |
| `CleanText.CleanBody` | internal/gmail/body.go:221-234 | the reassigned string ends tidy and trimmed, and for a positive limit at most three characters over it |
| `CleanText.CleanedIsTidy` | internal/gmail/body.go:221-234 | for every body and limit: no tab, no two adjacent spaces, no three adjacent newlines, no white space at the ends, length at most maxLength + 3 |
| `CleanText.CleanedExactly` | internal/gmail/body.go:221-234 | the part before the first marker, trimmed and tidied, if there is no limit or it fits; else what stands before its cut, trimmed, and the dots |
| `CleanText.CleanedKeepsInk` | internal/gmail/body.go:221-234 | then nothing that is written before the first marker is lost |
| `CleanText.CleanStaysAsItIs` | internal/gmail/body.go:221-234 | a tidy, trimmed body without a marker that fits comes back as it is |
| `CleanText.GreetingStays` | internal/gmail/body.go:221-234 | Hello Bob does |
| `CleanText.CleanedIsFromTheBody` | internal/gmail/body.go:221-234 | up to the dots, the characters that are not white space are, in order, those at the beginning of the body before its first marker |
| `CleanText.NormalizeWhitespace` | internal/gmail/body.go:237-247 | the text comes out tidy, no longer, with the same characters that are not white space, and unchanged exactly if it was tidy |
| `CleanText.NormalForm` | internal/gmail/body.go:237-247 | the result is tidy and never longer, equals the text exactly if that was tidy, and twice is once |
| `CleanText.NormalizingKeepsInk` | internal/gmail/body.go:237-247 | the characters that are not white space stay, in order |
| `CleanText.BlanksJoin` | internal/gmail/body.go:239-240 | texts that do not meet in two blanks collapse apart |
| `CleanText.BlanksBecomeOneSpace` | internal/gmail/body.go:239-240 | a run of spaces and tabs becomes one space; with the line above this fixes the replacement |
| `CleanText.NewlinesJoin` | internal/gmail/body.go:243-244 | texts that do not meet in two newlines collapse apart |
| `CleanText.NewlinesBecomeTwo` | internal/gmail/body.go:243-244 | a run of newlines becomes one of at most two |
| `CleanText.TruncatesAtWord` | internal/gmail/body.go:202-215 | a text that fits stays; else the cut is at the last space if that is among the last hundred characters, at the limit otherwise |
| `CleanText.KeepsLimitExactly` | internal/gmail/body.go:202-215 | the limit is kept exactly if the text fits, or what stays before the cut, trimmed, leaves room for the dots |
| `CleanText.LimitCanBeExceeded` | internal/gmail/body.go:202-215 | four letters under a limit of three become six characters |
| `MimeTree.FindsFirstVisible` | internal/gmail/body.go:46-69 | for every tree: the first non-empty body of the type in the preorder flattening without what lies below a matching part that decodes to nothing |
| `MimeTree.AllVisibleExactly` | internal/gmail/body.go:51-59 | that is the whole flattening exactly if no matching part with parts below it decodes to nothing |
| `MimeTree.FindsFirst` | internal/gmail/body.go:46-69 | then the search finds the first non-empty body of the whole tree |
| `MimeTree.FindsFirstExactly` | internal/gmail/body.go:46-69 | the search finds the first non-empty body of the whole tree exactly if none that is hidden comes first, unless with the same text as the first visible one |
| `MimeTree.TextCanHide` | internal/gmail/body.go:51-59 | a body that is one line break hides the text below it |
| `MimeTree.PlainComesFirst` | internal/gmail/body.go:21-25 | plain text visible anywhere is the answer, whatever the HTML and its conversion |
| `MimeTree.FallsBackExactly` | internal/gmail/body.go:27-41 | the snippet without either kind of text, HTML only without plain text, an error exactly if that HTML does not convert |
| `MimeTree.EncodedBodyIsDecoded` | internal/gmail/body.go:51-59 | a body that encodes some bytes in any of the three forms decodes to them, for its own type only |
| `MimeTree.SinglePartIsExtracted` | internal/gmail/body.go:16-41 | a message of one part gives its text, or its HTML as converted |
| `MimeTree.ChosenExactly` | internal/gmail/body.go:103-145 | what the options choose among the first visible texts, their conversion and the snippet |
| `MimeTree.CutToMaxExactly` | internal/gmail/body.go:147-155 | a text that fits comes back as it is, another up to its last space among the last hundred characters, or up to the limit, and with dots |
| `MimeTree.ExtractBodyWithOptions` | internal/gmail/body.go:98-158 | the branches that assign the body give the preferred kind, converted if asked for, the snippet for an empty text, then the cut |
| `MimeTree.PanicsExactly` | internal/gmail/body.go:98-158 | the call on a message panics exactly for a limit from 1 to 98 and a chosen text that is longer and has no space before the limit; else the length is at most maxLength + 3 and an error is one of the conversion |
| `MimeTree.SomeMessagePanics` | internal/gmail/body.go:142-155 | a message with nothing but a snippet of two letters panics under a limit of one |
| `MimeTree.KeepsLimitExactly` | internal/gmail/body.go:98-158 | a call that returns a text keeps to the limit exactly if the chosen text fits, or its last space before the limit is among the last hundred characters and leaves room for the dots |
| `MimeTree.LimitCanBeExceeded` | internal/gmail/body.go:147-155 | a snippet of a hundred letters under a limit of 99 comes back with 102 |
| `MimeTree.DefaultsAgreeExactly` | internal/gmail/body.go:98-158 | with plain text preferred, conversion and no limit it is ExtractBody, except exactly for HTML that converts to nothing |

## Left out

- HTTP handlers, routers, command line, wizard, static pages, configuration, metrics, logging and health checks.
- Calls to Gmail, the language model and the OAuth server: their answers are inputs. What honest answers are is written out where a statement needs it (`HonestSync`, `ListsServer`, `MonotoneServer`, `StableListing`).
- Gmail's label table is assumed to keep names unique, to delete and rename nothing, and to return the name it was asked to create.
- RetryEngine.DoWithOp: takes what each call of the retried function answers as a script, because a method value with effects cannot be passed; callers then run the callback once for every call made. The token bucket is an error or none per attempt.
- Backoff.HeaderlessDelay: arithmetic over reals, so float64 rounding and overflow to infinity are not modelled.
- AES-GCM, HMAC, JSON, HTML conversion and HTTP dates are given functions, with the round-trip law a lemma needs stated in its requires; JSON replaces invalid UTF-8 in an email, for which that law fails.
- SQL text and driver: tables are maps with the schema's unique keys. Foreign keys, created_at and updated_at, and rows of deleted accounts are not modelled.
- StoreTables.Store.GarbageCollectProcessedMessages: takes the cutoff time instead of the number of days and the clock.
- MailPipeline.Pipeline.CollectGarbage: speaks of the accounts in the table only.
- MailPipeline.Pipeline.Tick: admin requests and collections do not come between its calls here; `Interleaving` covers them for the labelling bound and for rows against the log, `ResetDuringTickExactly` for the cursor.
- NoLoss.MissedExactly: admin requests and collections come between ticks.
- LabelOnce.LabelledAtMostOnce: counts labellings that report success; an AddLabels whose reply is lost changes the message and is not counted. A crash between a label and its record counts as a failed record write.
- RetriedListing.RetriedListingIsHarmless: takes what happens to a message to be the same wherever in the batch it stands.
- Interleaving.LabelledAtMostOnceInterleaved: one pipeline at a time; two that share a store are not modelled.
- TokenSource.CacheNeverAheadOfStore: calls are atomic, as the mutex makes them.
- Base64.DecodeBodyRoundTrip: the offset in a decoding error is not modelled.
- ReplyText.StripQuotedReply: bodies are sequences of characters with a fixed set of white space; the regular expression engine is replaced by one predicate per pattern on a text and a start.
- CleanText.CleanBody: lengths count characters of the model, which are the bytes of the program; Unicode white space is not trimmed.
- OAuthState.ValidateOfSign: times and lifetimes that overflow an int64 are not modelled.
- HistorySync.Client.SyncSince: the text of a parse error is shortened; the context is an input of each attempt.
- MimeTree.ExtractBodyWithOptions: nothing in the program calls it; it is modelled for its difference from TruncateBody.
- GetAccount, HasAccounts, AccountCount and ListLabels, which only read the tables, and RemoveLabels, ModifyLabels and GetMessages, which the pipeline does not call.
