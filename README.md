# aerones-task downloader core, modelled in Dafny

This project models the core of the `aerones-task` concurrent file downloader:

- `Retrier::attempt` / `retry` runs a promise-returning action. It retries the action after every
  rejection, with a linear back-off of 5 seconds per failure so far. After `$attempts`
  failures it gives up with a `TooManyRetriesException` that carries every collected failure.
- `ConcurrentDownloader` downloads a list of URLs into a target directory:
  - `download` starts one retried transfer per URL. Each transfer resumes from the size of the
    file already on disk.
  - `settlePromise` turns every outcome into a settled-result object that never rejects.
  - `all()->then` splits the settled results into successful and failed downloads with
    `array_filter`, which keeps each result's original index as its key.
  - `downloadFile` opens the target file in write or append mode. It then sends
    `GET` with `Range: bytes=<offset>-`. A `416` answer on a resumed download counts as a
    complete file. A closed file stream fulfils the transfer; a stream error rejects it.
  - `getExistingBytesDownloadedAmount` returns the file size, or 0 when there is no file.
- The value types are `TooManyRetriesException`, `SettledPromiseResult` with its fulfilled
  and rejected implementors, `DownloadedFile` and `DownloadsResult`.

Modules:

| module | file | models |
|---|---|---|
| `Wrappers` | `wrappers.dfy` | `Option` (PHP `null`) |
| `Decimal` | `decimal.dfy` | decimal rendering of integers, as done by `%d` and string interpolation |
| `Paths` | `paths.dfy` | `basename` |
| `Throwables` | `throwables.dfy` | the failures that reach the promises; `TooManyRetriesException` |
| `Promises` | `promises.dfy` | a promise's settled state and the settle-once `Deferred` (the `$resolve` / `$reject` pair) |
| `Settled` | `settled.dfy` | `SettledPromiseResult` and its two implementors |
| `DataObjects` | `data_objects.dfy` | `DownloadedFile`, `DownloadsResult`, and keyed array entries |
| `Retrier` | `retrier.dfy` | `Retrier::attempt` as a class whose state the retry loop updates |
| `Transfer` | `transfer.dfy` | `downloadFile`, one transfer attempt |
| `Downloader` | `downloader.dfy` | `download`, `settlePromise`, `getExistingBytesDownloadedAmount`, the `all()` join and the partition |
| `CallSite` | `call_site.dfy` | how PHP binds the arguments of the `Retrier::attempt` call in `download` |

The outside world appears as parameters:

- An action is a function from the retry counter to the promise it settles with.
- A transfer attempt's environment (`AttemptEnv`) holds:
  - whether `fopen` succeeds;
  - the events that reach the transfer's handlers in order: the request failing, the file
    stream closing, or the file stream erroring.
- The file system is a map from path to file size.

The methods and what they are proved against:

- `Retrier.Attempt` and `Retrier.Retry` return a `RetryTrace`: the outcome, the counter passed to
  each run and the back-off delays scheduled. The trace is proved equal to `ExpectedTrace`.
- `Transfer.DownloadFile` returns a `TransferTrace`: the file mode, the request sent (if any) and
  the outcome. The trace is proved equal to `TransferSpec`.
- `Downloader.Download` returns the promise of a `DownloadsResult`. It is proved equal to
  `DownloadSpec`.
- `Retrier.RetryState.ExecuteAction`, `Promises.Deferred.Resolve` and `Promises.Deferred.Reject`
  update object state. Their contracts relate the new state to the old one.

The properties are lemmas about the specification functions.

Two points about the code:

- `attempt` accepts any integer and runs the action at most `max($attempts, 1)` times, because
  the bound is checked only after a failure (`Retrier.Limit`).
- `array_filter` keeps the original indices as keys, so both lists are sequences of
  `Entry(key, value)`.

## Model

| member | source | states |
|---|---|---|
| `Decimal.ParseNatToString` | src/ReactPHP/Retrier.php:48 | the decimal text `%d` produces for a count reads back as that count, so the message identifies the number of attempts |
| `Decimal.NatToStringInjective` | src/ConcurrentDownloader.php:129 | different offsets give different decimal texts in the `Range` header |
| `Decimal.NatToString` | src/ReactPHP/Retrier.php:48 | `%d` renders a count as a non-empty string of decimal digits with no leading zero |
| `Paths.BasenameIsLastSegment` | src/ConcurrentDownloader.php:46 | `basename` returns a `/`-free suffix of its argument that starts right after the last `/`, or the whole string when there is none |
| `Paths.Basename` | src/ConcurrentDownloader.php:46 | `basename` returns a string without `/` that is no longer than its argument |
| `Paths.BasenameAfterDirectory` | src/ConcurrentDownloader.php:147 | `basename($targetDir . basename($url))` is `basename($url)` when the directory ends in `/` |
| `Paths.BasenameIdempotent` | src/ConcurrentDownloader.php:166 | applying `basename` twice is the same as applying it once |
| `Throwables.NewTooManyRetriesException` | src/ReactPHP/TooManyRetriesException.php:15-17 | keeps message, code and the failure list; the previous throwable is the last failure, or null for an empty list |
| `Throwables.CodeDefaultsToZero` | src/ReactPHP/TooManyRetriesException.php:15 | when only the message and the failures are passed, the code is 0 and the failures are kept as given |
| `Promises.Deferred.constructor` | src/ConcurrentDownloader.php:122 | a new promise is pending |
| `Promises.Deferred.Resolve` | src/ConcurrentDownloader.php:163-169 | a pending promise becomes fulfilled with the value; a settled one does not change |
| `Promises.Deferred.Reject` | src/ConcurrentDownloader.php:171-174 | a pending promise becomes rejected with the reason; a settled one does not change |
| `Settled.SettledPromiseResult.GetState` | src/ReactPHP/SettledPromiseResult.php:10 | the state is `'fulfilled'` exactly for the fulfilled variant and `'rejected'` exactly for the rejected one |
| `Settled.StatesDistinct` | src/ReactPHP/SettledPromiseResult.php:7-8 | the two state constants differ, so the two filters in `download` cannot select the same result |
| `Settled.SettledPromiseResult.GetValue` | src/ReactPHP/SettledFulfilledPromiseResult.php:16-19 | `getValue` returns the value the fulfilled result was built with, which is the value of the promise it records |
| `Settled.SettledPromiseResult.GetReason` | src/ReactPHP/SettledRejectedPromiseResult.php:16-19 | `getReason` returns the reason the rejected result was built with, which is the reason of the promise it records |
| `DataObjects.DownloadedFile.GetUrl` | src/DataObject/DownloadedFile.php:13-16 | `getUrl` returns the URL field and no other |
| `DataObjects.DownloadedFile.GetPath` | src/DataObject/DownloadedFile.php:18-21 | `getPath` returns the path field and no other |
| `DataObjects.DownloadedFile.GetFilename` | src/DataObject/DownloadedFile.php:23-26 | `getFilename` returns the file-name field and no other |
| `DataObjects.DownloadsResult.GetSuccessfulDownloads` | src/DataObject/DownloadsResult.php:12-15 | returns the successful list and no other |
| `DataObjects.DownloadsResult.GetFailedDownloads` | src/DataObject/DownloadsResult.php:17-20 | returns the failed list and no other |
| `Retrier.RetryState.constructor` | src/ReactPHP/Retrier.php:22-24 | a new attempt has no failures, a counter of 0 and a pending promise |
| `Retrier.RetryState.ExecuteAction` | src/ReactPHP/Retrier.php:26-60 | one run passes the current counter. On success it resolves. On failure it records the reason and increments the counter; it then rejects with `TooManyRetriesException` once the counter reaches `$attempts`, or else schedules the next run after 5·counter seconds |
| `Retrier.Attempt` | src/ReactPHP/Retrier.php:16-64 | the first run and every scheduled re-run together produce exactly the reference trace `ExpectedTrace` |
| `Retrier.Retry` | src/ReactPHP/Retrier.php:66-69 | `retry` behaves exactly as `attempt` with the same arguments |
| `Retrier.MaxAttemptsMessageReadsBack` | src/ReactPHP/Retrier.php:48 | the message is `Max attempts of `, the count in decimal, then ` reached`, and the count reads back from it |
| `Retrier.ThreeAttemptsMessage` | src/ReactPHP/Retrier.php:48 | for three attempts the message is `Max attempts of 3 reached` |
| `Retrier.CallsAreFailureCounts` | src/ReactPHP/Retrier.php:37-44 | run i receives i, the number of failures so far; there are at most `$attempts` runs when `$attempts` ≥ 1 |
| `Retrier.LinearBackoff` | src/ReactPHP/Retrier.php:51-57 | one timer fewer than there are runs, and the delays are 5, 10, 15, … |
| `Retrier.FulfilsWithFirstSuccess` | src/ReactPHP/Retrier.php:37-38 | if run n is the first success within the bound, the attempt fulfils with its value after n+1 runs and n delays |
| `Retrier.RejectsAfterExhaustion` | src/ReactPHP/Retrier.php:43-50 | if every run fails, the attempt makes `max($attempts,1)` runs. It rejects with `Max attempts of <n> reached`, code 0, all n failures in order, and the last failure as previous |
| `Retrier.RejectionMeansExhaustion` | src/ReactPHP/Retrier.php:46-50 | a rejected attempt means every allowed run failed; the reason is the exhaustion exception (converse of the above) |
| `Retrier.SingleAttemptIsTerminal` | src/ReactPHP/Retrier.php:46-50 | with one attempt, the first failure is final and no timer is set |
| `Retrier.AlwaysFailingThreeAttempts` | src/ReactPHP/Retrier.php:43-58 | three attempts that always fail run with counters 0, 1, 2, wait 5 s and 10 s, then reject with `Max attempts of 3 reached` |
| `Retrier.FailTwiceThenSucceed` | src/ReactPHP/Retrier.php:37-57 | two failures and then a success give runs 0, 1, 2, delays 5 and 10, and the success value |
| `Retrier.FulfilledByARun` | src/ReactPHP/Retrier.php:37-38 | a fulfilled attempt carries the value of one of its runs |
| `Transfer.OpenMode` | src/ConcurrentDownloader.php:108-111 | the file opens in mode `w` exactly when the offset is 0, and in `a` exactly when it is positive |
| `Transfer.RangeHeaderRoundTrip` | src/ConcurrentDownloader.php:129 | the `Range` value `bytes=<offset>-` encodes the offset so that it reads back unchanged |
| `Transfer.RangeHeaderForm` | src/ConcurrentDownloader.php:129 | the `Range` value is `bytes=`, then one or more decimal digits, then `-` |
| `Transfer.CompletedNamesTheFile` | src/ConcurrentDownloader.php:145-149 | the resolved `DownloadedFile` keeps the URL and the path; its file name is the `/`-free last segment of the path |
| `Transfer.StreamErrorRejects` | src/ConcurrentDownloader.php:171-174 | a stream error as the first event rejects the transfer with that error |
| `Transfer.EventSettlement` | src/ConcurrentDownloader.php:137-174 | an event fulfils the transfer exactly when it is a stream close, or a request failure with status 416 on a resumed download; it then fulfils with the saved file. Any other event rejects with its own error, so an event never leaves the transfer pending |
| `Transfer.DownloadFile` | src/ConcurrentDownloader.php:98-176 | the transfer sends the request and settles its promise once, from the first event; the result equals the reference `TransferSpec` |
| `Transfer.OpenFailureSendsNoRequest` | src/ConcurrentDownloader.php:107-115 | when `fopen` fails, no request is sent and the transfer rejects with that error |
| `Transfer.RequestResumesAtOffset` | src/ConcurrentDownloader.php:125-131 | an opened transfer sends `RangeRequest`: one `GET` for the URL whose only header is `Range`, and that header reads back as the offset |
| `Transfer.RequestErrorOutcome` | src/ConcurrentDownloader.php:137-156 | a failed request fulfils when the answer is 416 and the offset is positive; otherwise it rejects with that failure. Later stream events are ignored |
| `Transfer.OutcomeIsCompletedFileOrCause` | src/ConcurrentDownloader.php:137-174 | when a transfer fulfils, it fulfils with `DownloadedFile(url, basename(saveTo), saveTo)`, whose file name has no `/`. When it rejects, the reason is the `fopen` error or the error of the first event, which is not a close |
| `Transfer.FirstSettlementWins` | src/ConcurrentDownloader.php:159-174 | once the first event has settled the transfer, further events change nothing |
| `Downloader.ExistingBytes` | src/ConcurrentDownloader.php:178-187 | the size of an existing file, and 0 for a missing one |
| `Downloader.SavePathKeepsBasename` | src/ConcurrentDownloader.php:46 | `$targetDir . basename($url)` starts with the directory; when the directory ends in `/`, its basename is the URL's basename |
| `Downloader.DirectoryWithoutSlash` | src/ConcurrentDownloader.php:147 | a target directory without a trailing `/` changes the reported file name: directory `d` and URL `f` give `df` |
| `Downloader.SettlePromise` | src/ConcurrentDownloader.php:193-203 | the wrapped promise never rejects. It is pending exactly when the input is. It wraps the input's value or reason so that the original outcome can be recovered |
| `Downloader.All` | src/ConcurrentDownloader.php:69 | `all()` fulfils exactly when every promise fulfils, with their values in order; it rejects exactly when some promise rejects |
| `Downloader.Download` | src/ConcurrentDownloader.php:35-96 | the loop builds one retried, settled pipeline per URL, and the joined result equals the reference `DownloadSpec` |
| `Downloader.FilterByStateSound` | src/ConcurrentDownloader.php:80-89 | every filtered entry is the result at its key, in the selected state, with keys strictly increasing |
| `Downloader.FilterByStateComplete` | src/ConcurrentDownloader.php:80-89 | every result in the selected state appears under its own key |
| `Downloader.PartitionSizes` | src/ConcurrentDownloader.php:80-89 | the two filters together hold exactly as many entries as there are results |
| `Downloader.Partition` | src/ConcurrentDownloader.php:80-94 | the report's two lists together have one entry per settled result |
| `Downloader.Join` | src/ConcurrentDownloader.php:69-95 | the report is pending or rejected exactly when `all()` is, with the same reason; once fulfilled it has one entry per awaited result |
| `Downloader.FulfilledEntries` | src/ConcurrentDownloader.php:80-84 | over results that record a list of outcomes, the fulfilled filter holds exactly the fulfilled outcomes, each under its position, in order |
| `Downloader.RejectedEntries` | src/ConcurrentDownloader.php:86-89 | over results that record a list of outcomes, the rejected filter holds exactly the rejected outcomes, each under its position, in order |
| `Downloader.SettledValues` | src/ConcurrentDownloader.php:69-76 | once `all()` fulfils over settled promises, the awaited value at each position records that position's outcome |
| `Downloader.SuccessfulOfJoin` | src/ConcurrentDownloader.php:69-84 | when `all()` over settled outcomes fulfils, the report's successes are exactly the fulfilled outcomes, each under its position, in order |
| `Downloader.FailedOfJoin` | src/ConcurrentDownloader.php:69-89 | when `all()` over settled outcomes fulfils, the report's failures are exactly the rejected outcomes, each under its position, in order |
| `Downloader.PipelinesSettleOutcomes` | src/ConcurrentDownloader.php:46-62 | the promise built for URL i is the settled form of URL i's retried transfer |
| `Downloader.DownloadNeverRejects` | src/ConcurrentDownloader.php:67-69 | because every URL's promise is settled first, the `download` promise never rejects |
| `Downloader.DownloadSettlesWhenEveryUrlSettles` | src/ConcurrentDownloader.php:69-95 | the `download` promise fulfils exactly when every URL's retried transfer has settled |
| `Downloader.SettledResults` | src/ConcurrentDownloader.php:71-76 | the awaited results are, URL by URL, the settled outcomes of the retried transfers |
| `Downloader.ReportCountsEveryUrl` | src/ConcurrentDownloader.php:80-94 | successes plus failures equals the number of URLs |
| `Downloader.SuccessfulAreExactlyTheFulfilled` | src/ConcurrentDownloader.php:80-84 | URL i is listed under key i among the successes, with its value, exactly when its retried transfer (`Outcomes` at i) fulfilled; keys increase |
| `Downloader.FailedAreExactlyTheRejected` | src/ConcurrentDownloader.php:86-89 | URL i is listed under key i among the failures, with its reason, exactly when its retried transfer (`Outcomes` at i) rejected; keys increase |
| `Downloader.RetryFulfilsWithSavedFile` | src/ConcurrentDownloader.php:46-61 | a successful URL reports its URL, `basename($targetDir . basename($url))` and `$targetDir . basename($url)`; when `$targetDir` ends in `/`, as DownloadCommand.php:49's does, the file name is `basename($url)` |
| `Downloader.RetryRejectsAfterThreeAttempts` | src/ConcurrentDownloader.php:49-53 | a failed URL's reason is `TooManyRetriesException` with `Max attempts of 3 reached` and exactly three failures |
| `Downloader.EveryAttemptResumesAtTheSameOffset` | src/ConcurrentDownloader.php:46-60 | every retry resumes from the size measured once, before the first attempt |
| `Downloader.ResumeOfCompleteFile` | src/ConcurrentDownloader.php:139-150 | a partly present file answered with 416 counts as downloaded at the first attempt |
| `Downloader.UrlThatDownloadsAtOnce` | src/ConcurrentDownloader.php:159-170 | a transfer that streams to completion settles as fulfilled with the saved file after one run |
| `Downloader.UrlThatAlwaysFails` | src/ConcurrentDownloader.php:49-53 | a server that always answers an error other than 416 gives a rejected result after three runs |
| `Downloader.OneFailingUrlAmongThree` | src/ConcurrentDownloader.php:69-95 | when the first and third URLs settle as downloaded and the second as failed, the successes are keys 0 and 2 and the failure is key 1, each with its own result |
| `Downloader.PartitionOfThree` | src/ConcurrentDownloader.php:80-94 | three results (fulfilled, rejected, fulfilled) split into successes under keys 0 and 2 and a failure under key 1 |
| `CallSite.BindAttempt` | src/ReactPHP/Retrier.php:16-20 | arguments bind only when there are enough of them and each of the first three is accepted by the declared `LoopInterface, int, callable`; too few arguments that all match raise `ArgumentCountError`, and otherwise the first mismatch raises a `TypeError` naming its position |
| `CallSite.AsWrittenCallRaisesTypeError` | src/ConcurrentDownloader.php:49-53 | the call as written fails on argument 2 with a `TypeError` |
| `CallSite.IntendedCallBindsThreeAttempts` | src/ReactPHP/Retrier.php:16-20 | the call without `$output` binds with 3 attempts, the value the model uses |

## Left out

- The ReactPHP event loop, timers and scheduling: the back-off delays are recorded in the trace but not waited on. Concurrency between URLs is modelled as a sequential map over the URLs.
- The timing order of settlement: a rejected input to `all()` is modelled as the first rejected one by index, not the first by time. It cannot happen in `download` anyway, because every input is settled first.
- Bytes on the wire and on disk: the response body, chunk order, `pipe`, `unwrapReadable` and the writable stream are reduced to the ordered events that reach the close and error handlers.
- Console output (`writeln`) and the logger: they have no effect on any outcome.
- `Downloader.ExistingBytes`: does not model `filesize` failing (PHP's `false`) or a path that exists but is a directory; the file system is a map from path to size.
- `Paths.Basename`: models only `/` as the separator. It leaves out PHP's trailing-slash stripping and locale handling.
- `Transfer.DownloadFile`: does not distinguish `fopen` raising from returning `false`. Both are modelled as an open failure that rejects before any request.
- `Retrier.Attempt`: an action that throws synchronously instead of returning a promise is not modelled. Each run's outcome is a function of the counter it receives.
- PHP integer overflow of the retry counter, offsets and delays is not modelled; integers are unbounded.
- The `TypeError` from the `Retrier::attempt` call in `download` is recorded under Findings. The rest of the model uses the intended call with 3 attempts.
- `src/Command/DownloadCommand.php`, the console command that calls `download`, is not part of this model.

## Findings

| source | as written | input that shows it | evidently intended | confidence | as-written member | corrected member |
|---|---|---|---|---|---|---|
| src/ConcurrentDownloader.php:49-53 | `Retrier::attempt($loop, $output, 3, fn() => …)` passes the console output object where `int $attempts` is declared; PHP never coerces an object to `int` | any call of `download` with at least one URL | `Retrier::attempt($loop, 3, fn() => …)`, retrying each download three times | high; not executed | `CallSite.AsWrittenCallRaisesTypeError` | `CallSite.IntendedCallBindsThreeAttempts` |
