# Verified model of the WUST algorithm tracker

The tracker collects submissions from online judges and serves contest rankings; its services sit behind an HTTP
gateway. This project models the parts of both whose behaviour is hard to see from the code, and proves what they
compute over all inputs, all interleavings or all runs. `dafny verify dfyconfig.toml` checks everything.

What is modelled, and the main results:

- **Contest matrix** (`ContestProblems`, `ContestMatrix`, `MatrixSummary`, `NowCoderColumns`). Submissions in any
  order are folded into one mutable state per (user, problem) cell. Each cell is shown to depend on its own runs only
  and to equal a declarative result (first accepted run in the window, rejected runs before it, late runs). Column
  statistics and user totals count the same cells (double counting), page rows add up to the penalty, and with columns
  normalised from the same submissions no submission that names a problem is lost, whatever the column labels
  overwrite in the alias table. The NowCoder filler loop can run forever; it ends exactly under a stated condition.
  The whole page (`MatrixSummary.BuildContestMatrix`) is stated in terms of the submissions, their statuses and times:
  what every result shows, whom every column counts and what every user solved.
- **Refresh pipeline** (`RefreshJobs`, `RefreshProtocol`, `FetchNormalize`, `SubmitTable`, `SyncHistory`,
  `SpiderWorker`). Requests and workers take database steps in any order. Over every run, when a single-platform
  request is admitted, a job of the user that can still fetch the platform is one that has expired; and any two jobs
  that may fetch the same platform are explained by an expiry or by a full refresh admitted over a job with nothing
  else left. When a request is let in is stated exactly, for single-platform and full ones. A job succeeds exactly when every platform's last attempt is committed; a full job leaves exactly the
  normalised fetch of every platform that succeeded, never fewer rows than before it, and a failed platform's rows
  untouched; rows of other users and platforms stay unless their ids are taken over. Status rows are a faithful summary of the event log, and CodeForces refreshes stay 30 minutes apart.
- **Service watcher** (`ServiceWatch`). In every interleaving of registration, updates, cancellation and cleanup, an
  applier that was added and never cancelled has applied the list that discovery announced last whenever the loop is
  idle, with one exact exception; a received list can always be delivered to everybody.
- **Stream recorder** (`StreamReplay`). The chunked reader behaves like a flat byte array with a cursor, and replaying a
  recorder yields exactly the bytes the wrapped bodies delivered.
- **Gateway proxy** (`RetryLoop`, `NodeFilter`, `ClientOwnership`). The retry loop against a declarative account of
  which attempts happen; distinct backends per attempt; conservation of clients over configuration reloads, with the
  clients of the last successful reload installed and open.
- **Caches and ranking** (`RankCache`, `RankCalls`, `ContestRanking`, `Sorting`). Staleness bounds of two stacked
  caches over every interleaving of overlapping calls, how long entries are served exactly, and the in-memory comparator against the ORDER BY of the query,
  with pagination.

Conventions. Time is an integer number of nanoseconds and the zero time is 0. Unicode case mapping is a record of
functions (`Text.Casing`), so results hold for any case tables; trimming is exact. The clock, network answers, database
faults, scheduling and the selector's choice are arguments. Integers are unbounded.

Where the code and its documentation differ, the model follows the code:

- `README.md` line 377 promises that a full refresh and single-platform refreshes exclude each other. The conflict
  condition in `app/core_data/task/scope.go` admits a full refresh while a single-platform job is waiting
  (`RefreshProtocol.FullRefreshIsNotExclusive`; the exact condition is `FullRefreshAdmittedExactly`).
- A stale job that was marked as failed is still delivered and runs (`RefreshProtocol.ExpiryBreaksExclusion`). Exclusion
  fails in exactly this way (`OverlapExactly`, and over runs `SinglePlatformExclusion`).
- A response that was to be retried but is the last one made is forwarded with its body already closed
  (`RetryLoop.ForwardedUnreadable`; readable exactly when a turn that was reached was accepted: `RunAttempts`).
- An applier registered while discovery refuses the watch does not learn the initial list that the next registration
  brings in (`ServiceWatch.RefusedIsLeftBehind`); the next delivery reaches it (`NothingMissed`).
- The NowCoder filler loop never ends for some contests (`NowCoderColumns.RunsForever`, exactly when: `FinishesExactly`).
- A column whose index, title or alias equals the key of an earlier column takes over that column's submissions
  (`ContestProblems.OwnColumnCanBeTaken`, exactly when: `KeepsOwnColumn`).

## Model

| member | source | states |
|---|---|---|
| `ContestProblems.NormalizeContestProblems` | app/core_data/internal/service/contest_matrix.go:590-640 | the columns are the first mention of every non-blank key, metadata before submissions, sorted stably when there is no metadata |
| `ContestProblems.CollectColumns` | app/core_data/internal/service/contest_matrix.go:591-633 | the two loops build exactly one column per first mention, at its position |
| `ContestProblems.FirstMentionsPerKey` | app/core_data/internal/service/contest_matrix.go:594-601 | first mentions have pairwise distinct keys, cover every non-blank key that is mentioned, and are mentions |
| `ContestProblems.ColumnKeys` | app/core_data/internal/service/contest_matrix.go:590-640 | column keys are distinct, trimmed, non-blank, and exactly the keys mentioned by metadata or submissions |
| `ContestProblems.SubmittedColumnsOrdered` | app/core_data/internal/service/contest_matrix.go:634-638 | if upper-casing never turns text into white space, columns taken from submissions alone are strictly ordered by index in upper case, then by key, at the first differing character |
| `ContestProblems.DerivedIndexNotBlank` | app/core_data/internal/service/contest_matrix.go:747-772 | a derived index is never blank, on every branch |
| `ContestProblems.ProperMetaComesFirst` | app/core_data/internal/service/contest_matrix.go:594-617 | metadata with proper, distinct keys keeps its positions in front of the submitted columns, with its index, name, link and aliases where it has them |
| `ContestProblems.NaturalOrderIsTotal` | app/core_data/internal/service/contest_matrix.go:778-785 | on columns with distinct keys and non-empty indexes the comparator is a strict total order |
| `ContestProblems.IndexFromKey` | app/core_data/internal/service/contest_matrix.go:345-372 | round trip: deriving the index from a Codeforces column key gives back the problem's index |
| `ContestProblems.AtCoderIndex` | app/core_data/internal/service/contest_matrix.go:750-758 | the index of an AtCoder task id is its suffix in upper case |
| `ContestProblems.IndexElsewhere` | app/core_data/internal/service/contest_matrix.go:768-771 | on other sites the index is the first field if it has at most four characters, otherwise the letter of the position |
| `ContestProblems.RegisterProblemAlias` | app/core_data/internal/service/contest_matrix.go:723-731 | a non-blank alias and its lower case map to the trimmed key afterwards, every other text is looked up as before |
| `ContestProblems.ClaimsExactly` | app/core_data/internal/service/contest_matrix.go:712-719 | a column claims its key, index, name and aliases, trimmed, as written and in lower case, and nothing else |
| `ContestProblems.BuildProblemAliasMap` | app/core_data/internal/service/contest_matrix.go:710-721 | the table maps a text to the last column that claims it, and has no entry if none does |
| `ContestProblems.WinningColumn` | app/core_data/internal/service/contest_matrix.go:710-721 | the winner claims the text and no later column does |
| `ContestProblems.ClaimedTextFindsColumn` | app/core_data/internal/service/contest_matrix.go:733-745 | a submitted title, index or alias is mapped to the last column claiming it |
| `ContestProblems.CaseDoesNotMatter` | app/core_data/internal/service/contest_matrix.go:733-745 | a text that equals a label of some column up to case is mapped to a column that claims it |
| `ContestProblems.EverySubmissionHasColumn` | app/core_data/internal/service/contest_matrix.go:827-835 | with columns from the same submissions, a submission reaches an existing column if and only if its problem or its id is not blank |
| `ContestProblems.KeepsOwnColumn` | app/core_data/internal/service/contest_matrix.go:733-745 | a column key maps to its own column if and only if no later column claims that text |
| `ContestProblems.OwnColumnCanBeTaken` | app/core_data/internal/service/contest_matrix.go:729-730 | for two metadata entries, the second titled like the key of the first, the normalised columns map the first key to the second column |
| `NowCoderColumns.FinishesExactly` | app/core_data/internal/service/contest_matrix.go:539-553 | the filler loop ends if and only if at most 26 fillers are needed and none of them is the name of a submitted problem |
| `NowCoderColumns.NeverPassesBlocked` | app/core_data/internal/service/contest_matrix.go:542-544 | once a wanted key is taken, no number of further passes adds a column |
| `NowCoderColumns.RunsForever` | app/core_data/internal/service/contest_matrix.go:539-544 | two contests for which the loop never ends: 27 announced problems without submissions, and a problem named like a filler |
| `NowCoderColumns.SynthesizeNowCoderProblems` | app/core_data/internal/service/contest_matrix.go:512-555 | exactly the announced number of columns with distinct keys, submitted names first in order of first use, then the lettered fillers, each with its index, link and aliases; none if the loop does not end |
| `NowCoderColumns.ColumnFields` | app/core_data/internal/service/contest_matrix.go:526-552 | key, index, name and aliases of submitted columns and of fillers |
| `NowCoderColumns.SynthesizedComeFirst` | app/core_data/internal/service/contest_matrix.go:125-129 | normalisation keeps all synthesised columns in front, in their order |
| `NowCoderColumns.FillUp` | app/core_data/internal/service/contest_matrix.go:539-554 | the filler loop returns the submitted columns followed by the fillers, exactly when it ends |
| `ContestMatrix.AdvanceIsResult` | app/core_data/internal/service/contest_matrix.go:837-862 | the in-place update of a cell yields the declarative result of the runs including the new one |
| `ContestMatrix.CellFlags` | app/core_data/internal/service/contest_matrix.go:838-858 | in terms of times: tried if a run is in the window (or there is none), solved if one of those is accepted, upsolved if one after the end is accepted before the cell was solved |
| `ContestMatrix.CellCounts` | app/core_data/internal/service/contest_matrix.go:845-861 | wrong attempts are the rejected runs of the contest before it was solved, late ones those before anything was accepted |
| `ContestMatrix.CellMinute` | app/core_data/internal/service/contest_matrix.go:846-851 | the minute is that of the first run that solved the cell |
| `ContestMatrix.MinuteSince` | app/core_data/internal/service/contest_matrix.go:846-851 | whole minutes since the start: the run lies within that minute |
| `ContestMatrix.AcceptedExactly` | app/core_data/internal/data/dal/statistic_rules.go:8-14 | the accepted statuses, by occurrence of the marks |
| `ContestMatrix.FoldSubmissions` | app/core_data/internal/service/contest_matrix.go:816-863 | after the loop every cell of a column holds the declarative result of its own submissions, regardless of what is interleaved |
| `ContestMatrix.MapKey` | app/core_data/internal/service/contest_matrix.go:828-832 | looking a text up in the built table gives its canonical key |
| `MatrixSummary.CalculateContestProblemMatrix` | app/core_data/internal/service/contest_matrix.go:810-918 | folded cells, statistics and totals over all visits of users and columns, and one row per page user in column order |
| `MatrixSummary.FoldedShows` | app/core_data/internal/service/contest_matrix.go:816-863 | each cell in terms of the submissions of its user and problem, their statuses and times |
| `MatrixSummary.RowDisplays` | app/core_data/internal/service/contest_matrix.go:887-914 | status, minute and attempts of a displayed result in terms of the submissions |
| `MatrixSummary.ColumnShows` | app/core_data/internal/service/contest_matrix.go:868-885 | a column counts the participants that tried, solved and upsolved it |
| `MatrixSummary.UserShows` | app/core_data/internal/service/contest_matrix.go:868-885 | a participant's number of solved problems counts the columns solved in the contest |
| `MatrixSummary.Summarize` | app/core_data/internal/service/contest_matrix.go:865-885 | the double loop adds every visited cell to its column and its user once per visit |
| `MatrixSummary.DoubleCounting` | app/core_data/internal/service/contest_matrix.go:868-885 | solved problems summed over users equal accepted users summed over columns |
| `MatrixSummary.ColumnLaws` | app/core_data/internal/service/contest_matrix.go:871-883 | accepted <= attempted <= users in every column; on time-ordered submissions accepted + upsolved <= users |
| `MatrixSummary.NotBoth` | app/core_data/internal/service/contest_matrix.go:844-862 | on time-ordered submissions no cell is both solved in the contest and upsolved |
| `MatrixSummary.BothOnUnorderedRuns` | app/core_data/internal/service/contest_matrix.go:856-858 | without the time order a cell can be both |
| `MatrixSummary.PenaltyMatchesRow` | app/core_data/internal/service/contest_matrix.go:877-908 | a participant's penalty is the sum of minute + 20 * wrong over the contest_ac cells of the displayed row |
| `MatrixSummary.PenaltyByProblem` | app/core_data/internal/service/contest_matrix.go:877-880 | each solved problem of a row costs its minute and twenty for every wrong attempt before it, the others nothing |
| `MatrixSummary.OneCellEach` | app/core_data/internal/service/contest_matrix.go:817-836 | summed over the matrix, every submission is counted in one cell if its user and key are there, and in none otherwise |
| `MatrixSummary.NothingDropped` | app/core_data/internal/service/contest_matrix.go:129-140 | with normalised columns the cells together hold every submission that is not blank exactly once |
| `MatrixSummary.BuildContestMatrix` | app/core_data/internal/service/contest_matrix.go:116-151 | for any metadata, submissions and logs: columns as normalised; every result, column count and solved count in terms of the submissions; rows for exactly the page users; every named submission counted once if all submitters are participants; totals over users equal totals over columns, column bounds, and displayed penalties that add up |
| `MatrixSummary.CollectContestUserIDs` | app/core_data/internal/service/contest_matrix.go:574-588 | the non-zero users of the logs, each once, in the order in which they are first listed |
| `RefreshJobs.SpiderTask.Do` | app/core_data/task/spider.go:32-78 | a row is added and its id returned if and only if no statement fails and every unfinished, not stale row of the user has one platform, named in it and other than the requested one; existing rows change only by expiry; otherwise the conflicting job, a database failure or a publishing failure is reported |
| `RefreshJobs.AdmittedExactly` | app/core_data/task/spider.go:112-140 | the same condition for the two queries, in terms of the rows |
| `RefreshProtocol.RowCoversFetches` | app/core_data/task/scope.go:3-8 | whatever a worker may still fetch, its row conflicts with a request for it |
| `RefreshProtocol.FetchesOnlyWhatItMay` | app/core_data/internal/biz/service/spider.go:68-79 | whatever a worker comes to fetch, it could fetch at every earlier moment |
| `RefreshProtocol.MayFetchCanFetch` | app/core_data/internal/biz/service/spider.go:68-79 | whatever a worker may still fetch, some continuation fetches |
| `RefreshProtocol.StepKeepsTied` | app/core_data/internal/biz/service/spider.go:274-315 | every step, expiry included, keeps current platform, total and finished count tied to the worker's phase, and finished jobs inactive |
| `RefreshProtocol.AdmissionIsExclusive` | app/core_data/task/spider.go:112-127 | an admitted request finds no active job of the user, other than those it expires, that may fetch the platform; a full refresh finds only jobs with one platform left |
| `RefreshProtocol.RunInvariant` | app/core_data/task/spider.go:32-127 | over every run the rows stay tied to their workers |
| `RefreshProtocol.UnfinishedIsActiveOrExpired` | app/core_data/task/spider.go:129-140 | over every run the row of an unfinished job is active, or the job was expired by an earlier request |
| `RefreshProtocol.OverlapsExplained` | app/core_data/task/spider.go:32-127 | over every run, if two jobs of a user may fetch the same platform, then the later is a full refresh and the earlier has nothing else left, or the earlier one has expired |
| `RefreshProtocol.SinglePlatformExclusion` | app/core_data/task/spider.go:33-39 | over every run, a job of the user that can still fetch the platform when a single-platform request is admitted has an inactive row or is expired by that request; a job that never expired cannot fetch it |
| `RefreshProtocol.OverlapExactly` | app/core_data/task/spider.go:112-140 | an admitted single-platform request meets a job that may fetch the platform if and only if such a job is inactive already or stale; when all unfinished jobs are active, if and only if a stale blocking row belongs to a worker that may fetch it |
| `RefreshProtocol.OneJobPerPlatform` | app/core_data/task/spider.go:112-127 | over every run, of two unfinished jobs of one user for the same single platform the earlier one has expired |
| `RefreshProtocol.FullRefreshAdmittedExactly` | app/core_data/task/scope.go:4-6 | a full refresh is admitted if and only if every active job of the user has one platform whose name is in its row |
| `RefreshProtocol.SinglePlatformAdmittedExactly` | app/core_data/task/scope.go:7 | a single-platform request is admitted if and only if every active job of the user has one platform, named in its row, other than the requested one |
| `RefreshProtocol.FullRefreshIsNotExclusive` | app/core_data/task/scope.go:4-6 | a run in which a full and a single-platform job of one user are both active and will both fetch the platform |
| `RefreshProtocol.ExpiryBreaksExclusion` | app/core_data/task/spider.go:129-140 | a run in which an expired job and its successor will both fetch the platform |
| `FetchNormalize.NormalizeFetchedSubmitLogs` | app/core_data/internal/biz/service/spider_normalize.go:9-42 | kept + skipped = fetched; an error exactly when something was fetched and nothing is left |
| `FetchNormalize.NormalizedIs` | app/core_data/internal/biz/service/spider_normalize.go:14-36 | ids are trimmed, non-empty and distinct, none is lost, order is by first usable occurrence, contents are those of the last |
| `FetchNormalize.NormalizedFields` | app/core_data/internal/biz/service/spider_normalize.go:14-36 | each row holds the trimmed fields of the last fetched item with its id and a time, and every such id has a row |
| `FetchNormalize.RowOrigin` | app/core_data/internal/biz/service/spider_normalize.go:29-35 | each row has a first and a last usable occurrence and equals the cleaned last one |
| `FetchNormalize.OrderedByFirst` | app/core_data/internal/biz/service/spider_normalize.go:29-35 | rows appear in the order of the first usable occurrence of their ids |
| `FetchNormalize.EmptyExactly` | app/core_data/internal/biz/service/spider_normalize.go:38-40 | the result is empty if and only if no fetched item is usable |
| `FetchNormalize.NormalizeTwice` | app/core_data/internal/biz/service/spider_normalize.go:9-42 | normalising a normalised list changes nothing |
| `SubmitTable.UpsertInTwo` | app/core_data/internal/biz/service/spider.go:164-175 | upserting in pieces equals one upsert of the whole |
| `SubmitTable.FullRefreshReplaces` | app/core_data/internal/biz/service/spider.go:155-176 | afterwards the user's rows on the platform are exactly the written ones; the rest is the old table, except for ids that were taken over |
| `SubmitTable.SavedExactly` | app/core_data/internal/biz/service/spider.go:155-176 | key by key: written rows are there, and any other row is there if and only if it was before and is not a row of this user on this platform deleted by a full refresh |
| `SubmitTable.IncrementalRefreshAdds` | app/core_data/internal/biz/service/spider.go:161-175 | the table is the old one overridden by the written rows |
| `SubmitTable.OtherPlatformsUntouched` | app/core_data/internal/biz/service/spider.go:157-175 | no refresh touches a row of another platform |
| `SpiderWorker.InsertInBatches` | app/core_data/internal/biz/service/spider.go:164-175 | inserting in batches of 500 equals the whole upsert, or reports the first batch that fails |
| `SpiderWorker.CommitsExactly` | app/core_data/internal/biz/service/spider.go:122-190 | an attempt commits if and only if the fetch succeeded, was empty or had an item with id and time, has at least as many rows as the user has on the platform (full refresh), and no statement failed |
| `SpiderWorker.CommittedFullRefresh` | app/core_data/internal/biz/service/spider.go:143-190 | a committed full refresh leaves exactly the normalised fetch for the user and platform, and never fewer rows than before |
| `SpiderWorker.AttemptIsLocal` | app/core_data/internal/biz/service/spider.go:155-177 | every attempt keeps rows under their keys and leaves other platforms unchanged |
| `SpiderWorker.AttemptKeepsRows` | app/core_data/internal/biz/service/spider.go:155-177 | a row the attempt does not bring stays as it is, unless a committed full refresh of its user and platform deletes it |
| `SpiderWorker.SpiderUseCase.FetchAndSave` | app/core_data/internal/biz/service/spider.go:122-178 | the table becomes the saved one if the attempt commits and is unchanged on any error; the error is that of the first thing that fails; skipped and saved counts on every path |
| `SpiderWorker.PlatformSucceedsExactly` | app/core_data/internal/biz/service/spider.go:225-272 | a platform succeeds if and only if some attempt within the limit commits and only retryable failures precede it; the table is then what that attempt leaves, and unchanged otherwise |
| `SpiderWorker.DecisiveIsFirst` | app/core_data/internal/biz/service/spider.go:232-272 | attempt k is the last one if and only if all before it are retried and it is not, or is at the limit |
| `SpiderWorker.AttemptLimit` | app/core_data/internal/biz/service/spider.go:225-264 | at most 12 attempts, one for CodeForces and in an incremental refresh |
| `SpiderWorker.FinalExactly` | app/core_data/internal/biz/service/spider.go:243-251 | which errors end the retries, by occurrence of the mark |
| `SpiderWorker.SpiderUseCase.FetchWithRetries` | app/core_data/internal/biz/service/spider.go:225-272 | at most 12 attempts (one for CodeForces), stopping at the decisive one, whose counts or error are reported and whose table is left |
| `SpiderWorker.SpiderUseCase.LoadOnePlatform` | app/core_data/internal/biz/service/spider.go:223-272 | one start is logged, and otherwise what the retry loop promises |
| `SpiderWorker.SpiderUseCase.FilterRecent` | app/core_data/internal/biz/service/spider.go:91-120 | exactly the platforms that are not on cooldown remain, in their order and as often as bound |
| `SpiderWorker.SpiderUseCase.ProcessOne` | app/core_data/internal/biz/service/spider.go:70-78 | one turn of the loop succeeds exactly when the last attempt is committed, leaves its table, logs a start and the outcome, and advances the job row by one platform |
| `SpiderWorker.SpiderUseCase.LoadData` | app/core_data/internal/biz/service/spider.go:33-89 | exactly the bound platforms that are not on cooldown are processed; the job succeeds if and only if something is bound and every last attempt is committed, equivalently every processed platform shows success; the table is the one the platforms leave in turn; every processed job ends with finished = total; CodeForces starts keep their distance |
| `SpiderWorker.SpiderUseCase.Mark` | app/core_data/internal/biz/service/spider.go:332-365 | the event is logged and the rows stay consistent with the log |
| `SpiderWorker.SpiderUseCase.ProcessAll` | app/core_data/internal/biz/service/spider.go:68-79 | the loop follows a trace of tables, outcomes and log entries, succeeds if and only if no platform failed, and advances the job row by their number |
| `SpiderWorker.SpiderUseCase.RunPlatforms` | app/core_data/internal/biz/service/spider.go:63-88 | from the announced platforms to the end of the job: table, result, marks, job row and spacing |
| `SpiderWorker.JobIsLocal` | app/core_data/internal/biz/service/spider.go:68-79 | between two moments of a job only the platforms processed in between change in the table |
| `SpiderWorker.FullJobReplaces` | app/core_data/internal/biz/service/spider.go:68-79 | after a full job every platform that succeeded has exactly its normalised last fetch and at least as many rows as before the job, every platform that failed its old rows |
| `SpiderWorker.JobKeepsRows` | app/core_data/internal/biz/service/spider.go:68-79 | a job leaves every row alone that no platform brings: rows of other users and platforms, and in an incremental job all |
| `SpiderWorker.IncrementalJobKeeps` | app/core_data/internal/biz/service/spider.go:155-176 | an incremental job deletes nothing |
| `SpiderWorker.JobLogMarks` | app/core_data/internal/biz/service/spider.go:71-78 | no platform of a job is left running; without repetition all show success if and only if none failed |
| `SpiderWorker.JobKeepsSpacing` | app/core_data/internal/biz/service/spider.go:54-79 | a job that only starts rested platforms, each once, keeps all CodeForces starts 30 minutes apart |
| `SyncHistory.RecordingIsConsistent` | app/core_data/internal/biz/service/spider.go:317-365 | status rows always show the last mark, the last start and the number of failures since the last success |
| `SyncHistory.LastStartIsLatest` | app/core_data/internal/biz/service/spider.go:108-120 | the recorded start is at least as late as every start of the same binding |
| `SyncHistory.LateStartKeepsSpacing` | app/core_data/internal/biz/service/spider.go:103-120 | a start that passes the cooldown test keeps all starts of the same binding the window apart |
| `SpiderWorker.StartKeepsSpacing` | app/core_data/internal/biz/service/spider.go:103-120 | the same for all users and platforms at once |
| `SpiderWorker.HalfAnHourApart` | app/core_data/internal/biz/service/spider.go:103-120 | two CodeForces refreshes of one binding start at least 30 minutes apart |
| `ServiceWatch.StepKeepsInv` | app/gateway/client/servicewatch.go:112-265 | every step keeps the agreement invariant of every endpoint |
| `ServiceWatch.CacheFollowsDiscovery` | app/gateway/client/servicewatch.go:170-198 | over every run the loop works on the list discovery announced last, and the cache holds it when the loop is idle |
| `ServiceWatch.Agreement` | app/gateway/client/servicewatch.go:112-236 | in every interleaving, when no cached update is undelivered, each uncancelled applier last applied exactly the cached non-empty list, which is the last announced one when the loop is idle, unless discovery refused the watch when it registered and no delivery reached it since |
| `ServiceWatch.AppliersFollowDiscovery` | app/gateway/client/servicewatch.go:112-236 | in terms of the steps: an applier that was added and never cancelled has applied the last announced list whenever the loop is idle, unless it was refused and no delivery has ended since |
| `ServiceWatch.StaysRegistered` | app/gateway/client/servicewatch.go:204-211 | once added, a registration stays until its applier is cancelled |
| `ServiceWatch.NothingMissed` | app/gateway/client/servicewatch.go:216-231 | a registration has missed nothing if it was not refused or a delivery has ended since |
| `ServiceWatch.RefusedIsLeftBehind` | app/gateway/client/servicewatch.go:133-137 | a run in which a refused applier does not learn the initial list |
| `ServiceWatch.ReceivedIsDeliverable` | app/gateway/client/servicewatch.go:192-231 | a received list can always be cached and delivered to every uncancelled applier once the lock is free |
| `ServiceWatch.CancelledStaysPut` | app/gateway/client/servicewatch.go:216-231 | a cancelled applier applies nothing any more |
| `ServiceWatch.DeliveryReachesAll` | app/gateway/client/servicewatch.go:216-231 | during a delivery every registration that missed the first one is still to be called |
| `ServiceWatch.CacheNeverEmpties` | app/gateway/client/servicewatch.go:78-83 | no step empties a non-empty cached list or forgets a watch |
| `ServiceWatch.OverRuns` | app/gateway/client/servicewatch.go:192-197 | over whole runs a non-empty cached list never becomes empty again |
| `ServiceWatch.OnlyCancelledAreDropped` | app/gateway/client/servicewatch.go:238-265 | no step removes the registration of an applier that is not cancelled |
| `ServiceWatch.SweepRemoves` | app/gateway/client/servicewatch.go:240-263 | what a scan found is gone after the sweep, and nothing else is |
| `StreamReplay.StreamReaderSeeker.Read` | app/gateway/middleware/streamrecorder/recorder.go:104-139 | exactly the next bytes of the concatenation arrive, the rest of the buffer is untouched, the position advances; EOF on a non-empty buffer if and only if nothing arrived, on an empty one depending on the chunk coordinates |
| `StreamReplay.StreamReaderSeeker.Seek` | app/gateway/middleware/streamrecorder/recorder.go:141-183 | the new position is that of a flat array; errors leave everything as it was |
| `StreamReplay.StreamReaderSeeker.Perform` | app/gateway/middleware/streamrecorder/recorder.go:97-183 | any sequence of reads and seeks shows what a flat byte array with a cursor shows |
| `StreamReplay.FlatAt` | app/gateway/middleware/streamrecorder/recorder.go:164-176 | where the bytes of chunk i lie in the concatenation |
| `StreamReplay.ReadAll` | app/gateway/middleware/streamrecorder/recorder.go:104-139 | reading with any non-empty buffers until EOF delivers everything from the cursor on |
| `StreamReplay.StreamRecorder.OnChunk` | app/gateway/middleware/streamrecorder/recorder.go:79-86 | the recorded bytes per tag are those of the traffic so far |
| `StreamReplay.StreamRecorder.BodyRead` | app/gateway/middleware/stream.go:143-152 | the caller's buffer gets the delivered bytes and the same bytes are recorded |
| `StreamReplay.StreamRecorder.BodyWrite` | app/gateway/middleware/stream.go:101-110 | the accepted bytes are recorded as request |
| `StreamReplay.StreamRecorder.RequestReader` | app/gateway/middleware/streamrecorder/recorder.go:41-43 | the reader's bytes are those delivered under the request tag |
| `StreamReplay.StreamRecorder.ResponseReader` | app/gateway/middleware/streamrecorder/recorder.go:45-47 | the reader's bytes are those delivered under the response tag |
| `StreamReplay.StreamRecorder.Mix` | app/gateway/middleware/streamrecorder/recorder.go:34-39 | the reader's bytes are the request bytes followed by the response bytes |
| `StreamReplay.StreamRecorder.ReplayMix` | app/gateway/middleware/streamrecorder/recorder.go:34-139 | replaying the mix until EOF yields exactly what the wrapped bodies delivered, request first |
| `RetryLoop.CalcAttempts` | app/gateway/proxy/retry.go:36-44 | the configured number of attempts if it is positive, otherwise one |
| `RetryLoop.RunAttempts` | app/gateway/proxy/proxy.go:206-252 | trips are exactly the turns that may and must happen, at most `attempts`; each admitted retry is marked once; the error is that of the context if it ended the loop, else that of the last trip; without one there is the response of the last trip, readable if and only if a turn that was reached was accepted |
| `RetryLoop.EndedIsSpelled` | app/gateway/proxy/proxy.go:206-248 | which trips were made and why no more, in terms of switch, breaker, context and answers alone |
| `RetryLoop.ForwardedUnreadable` | app/gateway/proxy/proxy.go:240-252 | a single attempt answered with a status to be retried is forwarded with a closed body |
| `RetryLoop.TripsAreReached` | app/gateway/proxy/proxy.go:207-248 | the turns up to the stopping point are exactly those whose gates are open and which follow no accepted response |
| `NodeFilter.Compact` | app/gateway/middleware/request.go:86-91 | in-place compaction equals the filter and leaves the tail of the array as it was |
| `NodeFilter.RequestOptions.FilterNodes` | app/gateway/middleware/request.go:78-96 | the returned slice holds the untried nodes in order, or all nodes untouched if none is untried |
| `NodeFilter.RequestOptions.SelectBackend` | app/gateway/client/client.go:34-45 | the node is a candidate and its address is remembered; without nodes nothing changes |
| `NodeFilter.AttemptAll` | app/gateway/client/client.go:34-45 | the attempts of one request choose among the candidates left by the earlier ones |
| `NodeFilter.EnoughLeft` | app/gateway/middleware/request.go:82-91 | trying k addresses rules out at most k nodes |
| `NodeFilter.DistinctBackends` | app/gateway/middleware/request.go:78-96 | the first min(k, n) of k attempts hit pairwise distinct backends |
| `NodeFilter.AllCandidatesAgain` | app/gateway/middleware/request.go:92-94 | once every address was tried, all nodes are candidates |
| `ClientOwnership.Proxy.Update` | app/gateway/proxy/proxy.go:300-317 | it succeeds if and only if every endpoint is built; then one new client per endpoint is installed in order and the old router retired; otherwise the routers are as before and the new clients are closed, last first |
| `ClientOwnership.Proxy.BuildRouter` | app/gateway/proxy/proxy.go:302-313 | the clients of the new router, or what a failure at any endpoint closes |
| `ClientOwnership.InstalledIsLastReload` | app/gateway/proxy/proxy.go:314-315 | over any run the installed router holds exactly the clients of the last successful reload, in order |
| `ClientOwnership.ServingIsOpen` | app/gateway/proxy/proxy.go:300-377 | over any run none of them is closed |
| `ClientOwnership.Proxy.RunDeferred` | app/gateway/proxy/proxy.go:357-362 | the deferred closes run last in, first out |
| `ClientOwnership.Proxy.SyncClose` | app/gateway/router/mux/mux.go:110-121 | every client of the replaced router is closed in order |
| `ClientOwnership.UpdateConserves` | app/gateway/proxy/proxy.go:110-133 | an update keeps every client in exactly one place |
| `ClientOwnership.RunConserves` | app/gateway/proxy/proxy.go:300-377 | over any run every client is in exactly one place: installed, retired or closed |
| `ClientOwnership.ClosedOnceOpenOwned` | app/gateway/proxy/proxy.go:300-377 | no client is closed twice, and the open ones are exactly those of the installed router and of retired routers not closed yet |
| `RankCache.TtlCache.Get` | app/core_data/internal/service/contest_meta_cache.go:26-39 | the answer is what the cache serves at that time, and no answer to any later read changes |
| `RankCache.TtlCache.SetWithTtl` | app/core_data/internal/service/contest_meta_cache.go:45-55 | afterwards the key is answered with the value up to and including its expiry and not after it, and every other key at any time as before |
| `RankCache.BuildRankMap` | app/core_data/internal/service/contest_official_rank.go:136-150 | a handle has the rank of the first ranked row that lists it, and none if there is no such row |
| `RankCache.OfficialRankIs` | app/core_data/internal/service/contest_official_rank.go:136-150 | the official rank is that of the first row with a rank that lists the trimmed lower-case handle |
| `RankCache.StoredInTime` | app/core_data/internal/service/contest_matrix.go:296-311 | storing a value of bounded age under the state-dependent time to live gives an entry of bounded age |
| `RankCalls.StepKeepsInv` | app/core_data/internal/service/contest_matrix.go:243-298 | every cache access and every answer, in any interleaving of calls, keeps the age bounds of all entries and all calls |
| `RankCalls.RanksAreFresh` | app/core_data/internal/service/contest_official_rank.go:127-153 | over every interleaving of calls, a map that is handed out is the official one of standings of that contest at most two minutes older before the cutoff (or with an unknown window) and twelve hours at any time, plus twice the longest call |
| `RankCalls.MetaIsFresh` | app/core_data/internal/service/contest_matrix.go:243-259 | over every interleaving of calls, metadata that is handed out is that of the contest, at most six hours and a minute older before the cutoff and twelve hours at any time, plus twice the longest call |
| `RankCalls.ServedExactly` | app/core_data/internal/service/contest_official_rank.go:151 | until another map is stored, a stored one is handed out exactly for a minute, or six hours if the contest was over for ten minutes when it was stored |
| `RankCalls.MetaIsServed` | app/core_data/internal/service/contest_matrix.go:257 | stored metadata is handed out for six hours, until other metadata is stored |
| `RankCalls.NobodyAsksForAMinute` | app/core_data/internal/service/contest_matrix.go:296-311 | for a minute after standings were stored no call for that contest asks upstream |
| `ContestRanking.ComparatorIsSql` | app/core_data/internal/service/contest.go:179-203 | on a pair of logs the comparator equals the ORDER BY if and only if the ranks are not ascending non-positive numbers |
| `ContestRanking.NegativeRanksBreakTheOrder` | app/core_data/internal/service/contest.go:186-193 | with negative ranks the comparator's ties are not transitive |
| `ContestRanking.ComparatorIsTotalOrder` | app/core_data/internal/service/contest.go:179-203 | for non-negative ranks and distinct users the comparator is a strict total order |
| `ContestRanking.SortMatchesQuery` | app/core_data/internal/data/dal/spider.go:294-302 | a permutation of the logs is in query order if and only if it is the sorted list |
| `ContestRanking.RankingOrder` | app/core_data/internal/service/contest.go:179-203 | in the sorted list ranked users come first, by rank, then by solved problems, submissions and user id |
| `ContestRanking.PagesTile` | app/core_data/internal/service/contest.go:205-221 | consecutive pages with a positive limit tile the list without gap or overlap |
| `ContestRanking.PageIsWindow` | app/core_data/internal/service/contest.go:205-221 | for any offset and limit, a log is on the page, at its place, if and only if the window reaches it |
| `ContestRanking.OnOnePage` | app/core_data/internal/service/contest.go:205-221 | log j is on page q if and only if q = j / limit |
| `Sorting.SortedUnique` | app/core_data/internal/service/contest.go:180-202 | under a total order there is only one ordered arrangement |
| `Sorting.SortOrders` | app/core_data/internal/service/contest.go:180-202 | sorting distinct elements under a total order orders them |

## Left out

- HTTP, HTML scraping, JSON, GORM, Redis, RabbitMQ and Consul: their answers are arguments of the model.
- Machine integers: positions, counters and penalties are unbounded; conversions to int32 and int64 do not wrap.
- `ElapsedMinute` truncates exactly; the float64 rounding of Go's `Minutes` is not modelled (it agrees for database timestamps, which have microseconds).
- sort.SliceStable: the library's in-place algorithm is replaced by its result on sequences; uniqueness of that result is proved where the order is total.
- Nested maps of cell states are one map keyed by pairs, and reading a missing cell does not insert an empty one.
- Problem links are an uninterpreted function; the page scrapers that produce metadata are not part of this model.
- RefreshJobs.SpiderTask.Do: which of several conflicting jobs is reported (the one updated last) is left open, and the ignored failure of marking an unpublished job as failed is not modelled.
- RefreshProtocol assumes that Do and each row update are atomic and that a message is delivered at most once; redelivery after a lost channel is not modelled.
- SpiderWorker.SpiderUseCase.LoadData: the spacing of CodeForces starts is stated for users with one row per platform, and for status writes that succeed, because the code ignores failures of those writes; the contest_logs save and cache invalidation are left out.
- SpiderWorker.SpiderUseCase.FetchAndSave: other writers between the count and the transaction are not modelled, nor are row ids.
- ServiceWatch: instance lists are values, so the in-place sort by the logging hash is invisible; the unlocked iteration over endpoints in cleanup is modelled as locked steps, without a claim that one pass removes every cancelled applier; when a watch loop stops is left open.
- RankCalls: a call takes at most a given time, whatever it is; a single HTTP request is limited by the code, a whole call is not. The answer's time stamp is the moment it was read completely, and metadata is represented by the standings it was made of.
- NodeFilter: the selector is modelled as copying its node list before filtering.
- RetryLoop covers the buffered path; streaming requests make one attempt and are modelled only as far as their bodies are recorded.
- ClientOwnership speaks of clients; middleware closers, which the proxy never closes, and waiting for open requests are left out.
- The submit and contest list caches, statistics queries, permissions, teams, messages and bulletins are not part of this model.
