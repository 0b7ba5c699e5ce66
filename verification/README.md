# Kilonova: verified models of its grading, scoring and query logic

Kilonova is an online judge. This project models, in Dafny, the parts of it whose correctness does
not show in any single function, and proves what those parts are for. Run
`dafny verify dfyconfig.toml` in this directory to check everything.

| part | files |
|---|---|
| the grading queue: one feeder, many writers, a one-place wake channel | `GradingQueue.dfy`, `QueueProgress.dfy`, `GraderHandler.dfy` |
| compiling filters and updates to SQL with numbered placeholders | `Sql.dfy`, `QueryBuilder.dfy`, `SubmissionTable.dfy`, `SubmissionQueries.dfy`, `SubmissionStatements.dfy` |
| resetting and initialising submissions: one transaction over four tables | `SubmissionTables.dfy`, `SubReset.dfy`, `ResetResults.dfy` |
| contest scores, the freeze and the leaderboard | `ContestWindows.dfy`, `ContestScoring.dfy`, `ContestFreeze.dfy`, `ContestRecords.dfy`, `ContestBoard.dfy`, `ContestResults.dfy`, `ContestTotals.dfy`, `ContestRows.dfy` |
| unrolling the graph of problem lists into a tree | `ProblemLists.dfy`, `ProblemListPaths.dfy` |
| admitting submissions: limit per minute, quota, cooldown | `Admission.dfy` |
| folding repeated audit entries on Discord | `AuditWebhook.dfy` |
| tag queries, statement names, the cache of rendered statements | `TagQuery.dfy`, `Strconv.dfy`, `StatementNames.dfy`, `RenderCache.dfy` |

`Common.dfy` holds what they share. Code that changes state step by step (the feeder, the query
builders, the reset, the sender, the bucket) is a class or a method with loops, proved against a
function or relation on values; the results are lemmas about those.

## How things are modelled

- **Grading queue.** Every database statement and every channel operation is one atomic step.
  `GradingQueue.Step` lists the steps of the feeder and of the goroutines that create, mark, reset
  or delete submissions, one at a time or many at once; a run is any enabled sequence of them. Executing a submission is the
  abstract step that ends with it `finished`. `GraderHandler.Handler` is the loop body as a
  program, and each of its methods is proved to be a run of the protocol's feeder steps.
- **SQL.** Statements are token sequences. They are read by a recursive-descent parser in which AND
  binds tighter than OR, and evaluated with SQL's three truth values, so a filter's meaning is
  proved through the text that is sent, not around it.
- **Reset.** INSERT ... SELECT hands out row ids in an order of its own, so its effect is a relation,
  and equality "up to row ids" is an explicit one-to-one renaming.
- **Contest scores.** FIRST_VALUE may pick any of several equal rows; a query's result is therefore a
  relation, and the filtered query is compared with all results of the unfiltered one. Scores are
  reals and times integers. The freeze time, or the present without one, is `Cutoff`.
- **Clocks, Discord, the renderer, `lower()`, the decompressor** are parameters: times given to a
  call, outcomes of a call, or functions nothing is assumed about.

## What the code does and its wording does not say

- Resetting by a filter is said to support only fields that are not reset. Exactly: the status must be
  unset or `creating`, the score unset or 0, `compile_error` unset or false, or nothing may match
  (`ResetResults.ResetsIffStable`); the `waiting` flag is fine although it reads the status. Otherwise
  the matched submissions stay `creating` with their old rows (`ResetResults.FinishedStrands`).
- "You cannot submit more than n submissions in a minute" refuses only when more than n are there
  already, so n + 1 get in; this is the exact bound (`Admission.SlidingWindow`, `Admission.OneTooMany`).
- Scores are regular when each problem has one scale, which is not negative, and no score is negative. For
  regular scores, `last_time` is the first moment at which a freeze hides nothing of a total if and only if
  some row that a positive score rests on was sent then (`ContestResults.LastTimeIsExactIff`). Scoring every
  submission on all subtasks of its problem is enough; a subtask added between two submissions that are worth
  nothing on it makes `last_time` too late (`ContestResults.AddedSubtaskMakesItLate`).
- Without regularity, which the code does not enforce, scores and totals can fall as the freeze moves on: rows
  are ranked before they are scaled, and -1 stands for having sent nothing (`ContestRecords.ScoreCanFall`,
  `ContestRecords.SummedScoreCanFall`, `ContestRecords.NegativeScoreFalls`, `ContestTotals.TotalCanFall`).
  Exactly when they do not is said on the rows: by `ContestRecords.ScoreGrowsIff`, for summed problems by
  `ContestRecords.SummedScoreGrowsIff`, and for totals by `ContestTotals.TotalsGrowIff`.
- A submission marked for reevaluation while the feeder runs it, or is about to, is not reset: the end of
  that run takes the mark away (`QueueProgress.MarkLeadsToReset`). Likewise a submission that an
  administrator puts back to waiting while the feeder runs it is not graded again: the end of that run
  takes the reset away (`QueueProgress.ResetLeadsToStart`).
- A tag query that asks for a tag that does not exist shows every problem that the rest of the query
  accepts (`TagQuery.UnknownTagShowsEverything`); `TagQuery.NormalisingKeepsMeaning` says exactly when
  dropping unknown tags changes nothing.
- After a message could be neither edited nor replaced, the next successful edit of it shows a count
  that is too high; `AuditWebhook.FaithfulIffNoEditAfterFailing` says this is the only way the channel
  and the log come apart, and `AuditWebhook.CountRunsAhead` is a run on which they do.
- A statement found by an unanchored match is looked up again under its formatted name, which is the
  attachment's own name only when the whole name matched (`StatementNames.FormatsBackIffWhole`,
  `StatementNames.LookedUpElsewhere`).

## Model

| member | source | states |
|---|---|---|
| `GradingQueue.FirstIdsAreFirst` | db/submission.go:368-385 | A snapshot ordered by ascending id with a limit holds ids of its queue only, in order, and whatever it leaves out comes after all of it and only when it is full. |
| `GradingQueue.OneRowChanges` | sudoapi/submission.go:456-465 | Said of the rows: a new submission is `creating`; initialising it or resetting it makes it `waiting` and touches no other row; deleting it touches no other row. |
| `GradingQueue.ManyRowsChange` | sudoapi/submission.go:481-494 | Said of the rows: marking a problem makes exactly its submissions `reevaling`, and resetting a list makes exactly those on it `waiting`. |
| `GradingQueue.WritersTakeTurns` | sudoapi/admin.go:44-73 | Who inserts initialises next, who lists resets what was found `working`, and everyone who changed rows owes a wake call until making it; nobody else's turn changes. |
| `GradingQueue.CallsRunThrough` | sudoapi/submission.go:456-494 | From every state an idle goroutine can go through each of its calls step by step, rows can be deleted and the ticker can wake, so the runs quantified over include all of these. |
| `GradingQueue.FeederRows` | eval/grader/feeder.go:70-157 | Said of the rows: each feeder move changes at most the submission it is at, to `working`, to `finished`, or from its reevaluation back to `waiting`. |
| `GradingQueue.FeederKeepsCovered` | eval/grader/feeder.go:99-157 | Every move of the feeder keeps this: a queued submission has a token, a writer about to wake, or a feeder that is still going to look at it or wake itself. |
| `GradingQueue.EnvironmentKeepsCovered` | sudoapi/submission.go:448-494 | So does every step of the goroutines that insert, initialise, mark, list, reset, wake or delete, at any moment of the feeder's round. |
| `GradingQueue.RunKeepsCovered` | eval/grader/feeder.go:99-157 | The cover holds at the end of every run. |
| `GradingQueue.NoLostWakeup` | eval/grader/feeder.go:63-157 | In every reachable state with the feeder parked and the channel empty, a submission is waiting or reevaling only if its writer has changed it and not yet called Wake. |
| `QueueProgress.SnapshotServesRivals` | eval/grader/feeder.go:110-124 | A snapshot either holds a given submission or takes a whole batch of its smaller-id rivals out of its way. |
| `QueueProgress.StartsMeans` | eval/grader/feeder.go:70-93 | A feeder move starts a submission exactly when it makes it `working`, and resets it exactly when it makes it `waiting`. |
| `QueueProgress.WaitingIsBounded` | eval/grader/feeder.go:110-124 | A waiting submission with k smaller waiting ids is started within k/40 + 1 waiting loops, on every interleaved run in which nobody else touches it or puts a smaller id into its queue. |
| `QueueProgress.ReevalIsBounded` | eval/grader/feeder.go:126-149 | A reevaling one is reset within k/5 + 1 reevaluation loops. |
| `QueueProgress.WaitingIsBoundedAtAnyTime` | eval/grader/feeder.go:110-124 | The same from any point of a round, unless the feeder is running it: k/40 + 2 loops. |
| `QueueProgress.ReevalIsBoundedAtAnyTime` | eval/grader/feeder.go:126-149 | The same from any point of a round, unless the feeder is running it or about to start it: k/5 + 2 loops. |
| `QueueProgress.MarkLeadsToReset` | sudoapi/submission.go:481-494 | A submission marked for reevaluation at any point of any run, and left alone from then on, is reset if and only if the feeder is neither running it nor about to start it at the mark; otherwise the mark is lost. |
| `QueueProgress.InitLeadsToStart` | sudoapi/submission.go:456-468 | A new submission, initialised at any point of any run and left alone from then on, is started within k/40 + 2 loops if and only if the feeder is not running it at that moment. |
| `QueueProgress.ResetLeadsToStart` | sudoapi/admin.go:44-73 | A submission that others put back to waiting, alone or in the list of those found working, at any point of any run, and leave alone from then on, is started again within k/40 + 2 loops if and only if the feeder is not running it at the reset; otherwise the reset is lost. |
| `QueueProgress.FeederStepProgresses` | eval/grader/feeder.go:99-157 | Every feeder move lowers a lexicographic measure of work unseen, wake-ups pending and position, including moves that requeue a submission. |
| `QueueProgress.FeederSettles` | eval/grader/feeder.go:108-154 | Without outside arrivals the chain of wake-ups ends after finitely many moves, parked, with no token and both queues empty. |
| `GraderHandler.RoundsNeededClosedForm` | eval/grader/feeder.go:108-154 | How many rounds that takes from w waiting and r reevaling submissions: the larger of ceil(w/40) and ceil(r/5) + 1, the extra round being the one every reset asks for. |
| `GraderHandler.AfterRoundShortens` | eval/grader/feeder.go:108-149 | One round takes exactly one batch off each queue. |
| `GraderHandler.Handler.Wake` | eval/grader/feeder.go:63-68 | A non-blocking send leaves exactly one token, whether or not there was one. |
| `GraderHandler.Handler.RunSubmission` | eval/grader/feeder.go:70-93 | Marks working, executes, ends finished; three feeder steps of the protocol. |
| `GraderHandler.Handler.ResetSubmission` | sudoapi/admin.go:63-73 | Puts one submission back to waiting and leaves a token; two feeder steps of the protocol. |
| `GraderHandler.Handler.DrainWaiting` | eval/grader/feeder.go:110-124 | Finishes the first 40 waiting submissions by id and reports a leftover exactly when there were more. |
| `GraderHandler.Handler.DrainReevals` | eval/grader/feeder.go:126-149 | Finishes the first 5 reevaling submissions and leaves a token exactly when there was one or any was reset. |
| `GraderHandler.Handler.Handle` | eval/grader/feeder.go:99-157 | One round is a run of feeder steps from parked to parked, with the table and the token it leaves stated in full. |
| `GraderHandler.Handler.HandleUntilParked` | eval/grader/feeder.go:99-157 | Left alone the loop empties both queues in exactly the number of rounds of the closed form. |
| `Sql.ParsePrintOr` | db/submission.go:262-336 | Every condition, however nested, is read back from its text as it was meant: the parentheses written are the ones precedence needs. |
| `Sql.ParseJoined` | db/querybuilder.go:22-30 | Closed conditions joined with AND are read as their conjunction, with an OR group inside parentheses staying one conjunct. |
| `Sql.FillCounts` | db/querybuilder.go:62-79 | Filling a template's slots gives consecutive placeholders, one for each slot. |
| `Sql.ThreeValues` | db/querybuilder.go:22-30 | The logic conditions are evaluated in: AND is the lesser and OR the greater of two truth values, and only a comparison with NULL is unknown. |
| `QueryBuilder.FilterBuilder.constructor` | db/querybuilder.go:81-87 | A new builder has no text, no arguments and the next placeholder is `$1`. |
| `QueryBuilder.FilterBuilder.Where` | db/querybuilder.go:22-30 | The constraints joined with AND, or a condition that is always true. |
| `QueryBuilder.FilterBuilder.WithUpdate` | db/querybuilder.go:32-35 | Prefix and conditions together use `$1..$n` once each, in order, for n arguments. |
| `QueryBuilder.FilterBuilder.AddConstraint` | db/querybuilder.go:60-79 | Adds one condition numbered on from the last argument, keeps the earlier ones and their arguments, and keeps the text complete. |
| `QueryBuilder.FilterBuilder.FormatString` | db/querybuilder.go:43-58 | Numbers a piece that follows the conditions on from them, so the whole statement still uses `$1..$n` in order. |
| `QueryBuilder.UpdateBuilder.AddUpdate` | db/querybuilder.go:129-148 | The same for assignments. |
| `QueryBuilder.UpdateBuilder.MakeFilter` | db/querybuilder.go:107-114 | The conditions of an update are numbered on from its assignments, and the updater keeps its own arguments. |
| `SubmissionQueries.ConditionMeaning` | db/submission.go:262-336 | Each condition the filter code can write holds of a row, in three-valued SQL with its own argument, exactly when the filter's field means it, including EXISTS subqueries and the group of three statuses. |
| `SubmissionQueries.WantsAreTheFilter` | db/submission.go:262-336 | The conditions added for a filter hold together exactly when the row meets every set field: nil and empty id lists differ, contest 0 means none. |
| `SubmissionQueries.FilterTextMeans` | db/submission.go:262-336 | Compilation keeps meaning: for every filter, wherever its numbering starts and whatever follows, the rendered text with its arguments accepts a row if and only if the row satisfies the filter. |
| `SubmissionStatements.SubFilterQuery` | db/submission.go:262-336 | The branches of the code add exactly the conditions the filter stands for, after what the builder held, and keep its placeholders complete. |
| `SubmissionStatements.SubUpdateQuery` | db/submission.go:338-366 | The branches add exactly one assignment for each set field, each bound to its own argument. |
| `SubmissionStatements.SetsAreTheUpdate` | db/submission.go:338-366 | Performing the assignments one after the other is replacing the set fields and no others. |
| `SubmissionStatements.UpdateMeans` | db/submission.go:201-211 | Running the update text on any table changes the rows that satisfy the filter as the update says and leaves the others. |
| `SubmissionStatements.CountMeans` | db/submission.go:116-133 | Running the count text, plain or with its limit inside a subquery, gives the number of satisfying rows, cut at the limit when it is positive. |
| `SubmissionStatements.SubmissionStore.UpdateStatement` | db/submission.go:201-211 | What the builders put together is the update text with placeholders `$1..$n` for its n arguments; an update that sets nothing is refused. |
| `SubmissionStatements.SubmissionStore.BulkUpdateSubmissions` | db/submission.go:201-211 | The table afterwards, stated on rows, filter and update alone. |
| `SubmissionStatements.SubmissionStore.CountStatement` | db/submission.go:116-125 | The count's placeholders are complete too, with the limit bound to the last argument. |
| `SubmissionStatements.SubmissionStore.SubmissionCount` | db/submission.go:116-133 | The count, stated on rows, filter and limit alone. |
| `SubmissionTables.InsertRows` | db/sub_reset.go:70-89 | INSERT ... SELECT adds exactly one new row for each selected pair, in any order, and touches no other row. |
| `SubmissionTables.SameUpToIds` | db/sub_reset.go:70-89 | Two inserts of one selection into one table differ by a one-to-one renaming of the new ids. |
| `SubReset.StillSatisfies` | db/sub_reset.go:31-40 | A row that satisfied the filter still does after clearing, exactly when the filter is stable. |
| `SubReset.MatchedAfterClear` | db/sub_reset.go:31-53 | After the first statement the filter selects the same submissions, or none. |
| `SubReset.ClearedDoNotClash` | db/sub_reset.go:13-24 | After clearing no unique constraint is in the way of initialising. |
| `SubReset.Database.ClearSubs` | db/sub_reset.go:31-54 | The update, the two deletions and the cascade to links, for stable and for other filters. |
| `SubReset.Database.InitSubs` | db/sub_reset.go:56-107 | Succeeds exactly when no unique constraint is violated, and then gives every selected submission its settings, rows, links and `waiting`. |
| `SubReset.Database.ResetSubmissions` | db/sub_reset.go:13-23 | The whole transaction for every filter; it never has to roll back. |
| `SubReset.Database.InitSubmission` | db/sub_reset.go:25-29 | The same for one id; a failure leaves all four tables as they were. |
| `ResetResults.RenewedForgets` | db/sub_reset.go:35-67 | The new row depends only on the fields the reset does not write and on the problem. |
| `ResetResults.RenewedRows` | db/sub_reset.go:31-107 | Every selected row ends renewed, every other row as it was. |
| `ResetResults.InitialisedColumns` | db/sub_reset.go:56-102 | Column by column: an initialised submission is `waiting`, of type acm-icpc if and only if its problem's strategy is, with the problem's precision and scale, or its own if the problem is gone; its result and origin stay. |
| `ResetResults.ResetColumns` | db/sub_reset.go:35-102 | A reset does the same and leaves no score, time, memory, error, message, verdict or duration. |
| `ResetResults.ClearedColumns` | db/sub_reset.go:35-39 | What clearing alone leaves of a selected submission. |
| `ResetResults.ClashMeans` | db/sub_reset.go:80-100 | Said of the rows: initialising clashes exactly when a selected submission already has a row for a subtask of its problem, or two of its rows that are to be linked already are. |
| `ResetResults.InitialisedSubtests` | db/sub_reset.go:70-78 | Initialising adds exactly one subtest for each selected submission and test of its problem, with the submission's time, the test's number and score, and nothing run. |
| `ResetResults.InitialisedSubtasks` | db/sub_reset.go:80-90 | Exactly one row for each subtask, with the owner, contest, time and new settings of the submission and the subtask's numbers. |
| `ResetResults.InitialisedLinks` | db/sub_reset.go:92-100 | The links added join exactly the rows of one selected submission whose subtask holds the test. |
| `ResetResults.OneSubtestPerTest` | db/sub_reset.go:69-77 | Afterwards a selected submission has exactly one fresh subtest for each test of its problem and no other, whatever it had before. |
| `ResetResults.OneRowPerSubtask` | db/sub_reset.go:79-89 | Likewise one row for each subtask, with the submission's new settings. |
| `ResetResults.LinkedAsInTheProblem` | db/sub_reset.go:91-99 | Its rows are linked exactly as the problem's subtasks hold its tests. |
| `ResetResults.OthersUnchanged` | db/sub_reset.go:31-107 | Submissions that were not selected keep their row, their children with ids, and their links. |
| `ResetResults.SelectionForgets` | db/sub_reset.go:13-107 | Two databases that differ only in what a selection of submissions went through are, once these are reset, equal up to row ids. |
| `ResetResults.HistoryIndependent` | db/sub_reset.go:13-107 | For a filter over fields the reset does not write: it selects the same submissions in both databases, and resetting by it leads to tables equal up to row ids. |
| `ResetResults.ResetKeepsWellFormed` | db/sub_reset.go:13-107 | A reset keeps the primary and foreign keys and the unique constraint. |
| `ResetResults.MatchedAfterReset` | db/sub_reset.go:13-24 | After its own reset a stable filter selects the same submissions, or none if it asks for the status `creating`. |
| `ResetResults.ResetTwice` | db/sub_reset.go:13-107 | Resetting twice by any filter, which selects anew the second time, is resetting once, up to row ids. |
| `ResetResults.ResetsIffStable` | db/sub_reset.go:11-24 | ResetSubmissions resets what its filter selected if and only if the filter is stable or selected nothing. |
| `ResetResults.FinishedStrands` | db/sub_reset.go:11-24 | A filter on the status `finished` leaves the submission `creating` with its old subtests. |
| `ContestWindows.BestAppears` | db/contest.go:274-292 | A partition's best score is smaller before the time of its best row and there from then on. |
| `ContestScoring.MaxSubmissionStrat` | db/contest.go:274-282 | A pass over the submissions gives, for each contestant and problem, a first row in the order of score and time among finished and reevaling ones up to the cutoff. |
| `ContestScoring.SubtaskMaxScores` | db/contest.go:284-292 | The same for each subtask, over rows with a subtask and without regard to status. |
| `ContestScoring.ContestMaxScores` | db/contest.go:273-337 | The joined table, one row per contestant and problem asked for, is one the declarative query allows. |
| `ContestFreeze.ScoreIsBestSubmission` | db/contest.go:274-321 | For regular scores (one non-negative scale for each problem, no negative scores): stated on the rows alone, unless subtasks are summed, the score is the highest scaled score sent up to the freeze and mintime the first time it was sent, or -1 and NULL when nothing counts. |
| `ContestFreeze.SubtaskIsBest` | db/contest.go:284-296 | For regular scores, each subtask enters the sum with its best result and its first time, and only if anything counts for it. |
| `ContestScoring.PushdownIsSound` | db/contest.go:298-333 | With a user or problem filter the results are exactly the matching rows of the unfiltered query's results, although only one inner query is filtered. |
| `ContestRows.OnlyContestRowsMatter` | db/contest.go:277-292 | Two databases that agree on a contest's participants and problems, its finished and reevaling submissions and its subtask rows up to the cutoff have the same results: no other row is read. |
| `ContestRows.CellsOfTable` | db/contest.go:298-333 | A result has a cell for exactly the registered users and the contest's problems, or those of them that are asked for. |
| `ContestRows.CellIsBestSubmission` | db/contest.go:274-321 | For regular scores, said of the submissions: a score that is not summed is score * scale / 100 of such a submission, with its time, where none is worth more and none as high was sent earlier; -1 and NULL without any. |
| `ContestRows.CellSumsBestResults` | db/contest.go:284-321 | For regular scores, said of the subtask rows: a summed score adds up computed_score * scale / 100 of the best row of every subtask that has one, with the latest of their times; -1 and NULL without any. |
| `ContestFreeze.ScoreNeverFalls` | db/contest.go:274-321 | For regular scores, a later freeze never lowers a score of any strategy. |
| `ContestFreeze.ScoreIsTimely` | db/contest.go:314-321 | For regular scores, from its mintime on a positive score is already what it will be. |
| `ContestFreeze.SumIsWholeIff` | db/contest.go:284-296 | For regular scores, a frozen sum is the whole sum if and only if every subtask that adds to it already had its best row. |
| `ContestFreeze.ScoreIsWholeIff` | db/contest.go:284-321 | For regular scores and every strategy, a freeze shows the whole of a positive score if and only if it hides none of the rows the score rests on. |
| `ContestBoard.Rank` | db/contest.go:394-396 | A board lists exactly the entries of the contestants; said of its entries, totals do not rise, among equal ones last times do not fall and none comes last, and among equal both user ids rise. |
| `ContestBoard.Leaderboard` | db/contest.go:339-396 | The leaderboard is such a board, in that order, of a possible result of the scoring query at the freeze. |
| `ContestBoard.EachContestantOnce` | db/contest.go:339-356 | Everyone registered without contest access (or everyone, if asked) appears exactly once and nobody else, with the sum of their positive scores on the contest's problems and the latest of the times these were reached at. |
| `ContestBoard.RankingIsUnique` | db/contest.go:394-396 | The sort key leaves no choice: two boards of the same entries are equal. |
| `ContestResults.ScoreAtFreeze` | db/contest.go:273-337 | For regular scores and two cutoffs, how each cell of the two score tables compares: held back, or shown as it is. |
| `ContestResults.TotalsGrow` | db/contest.go:339-344 | For regular scores, totals never fall as the freeze moves on. |
| `ContestResults.TotalIsTimely` | db/contest.go:339-344 | For regular scores, from last_time on, the frozen total is the whole total, also when submissions miss subtasks. |
| `ContestResults.TotalIsWholeIff` | db/contest.go:339-344 | For regular scores, a freeze hides nothing of a total if and only if it hides none of the rows that its positive scores rest on; no condition on subtasks. |
| `ContestResults.LastTimeIsExact` | db/contest.go:339-344 | For regular scores, if one of those rows was sent at last_time, the total at freeze t equals the unfrozen one if and only if t is at or after last_time, or there is none. |
| `ContestResults.LastTimeIsExactIff` | db/contest.go:339-344 | For regular scores, last_time is exact at every freeze up to the present if and only if a row that a positive score rests on was sent then, or there is no last_time. |
| `ContestResults.LastTimeIsExactAlwaysIff` | db/contest.go:339-344 | For regular scores, the same condition decides exactness at every freeze time, past or future, against the board of this moment. |
| `ContestResults.AllSubtasksMakeItExact` | db/contest.go:284-296 | For regular scores, the condition holds when everyone scored on one subtask of a problem is scored on all of them at that time. |
| `ContestResults.NoLastTime` | db/contest.go:340-343 | For regular scores, last_time is NULL exactly when no problem scores above 0. |
| `ContestResults.LaterRowsDoNotShow` | db/contest.go:274-292 | Whatever is submitted after the freeze, the possible score tables and boards at the freeze are the same. |
| `ContestResults.AddedSubtaskMakesItLate` | db/contest.go:284-296 | A subtask added between two submissions: the sum is whole at 10 and mintime is 20, and no row the sum rests on was sent then. |
| `ContestRecords.NeverFallsIffRecordsGrow` | db/contest.go:274-292 | For any rows, what successive freezes show of a partition never loses value if and only if no record of it (a row ranked first when it was sent) is worth less than an earlier one or another of the same time. |
| `ContestRecords.ScoreGrowsIff` | db/contest.go:274-321 | Unless subtasks are summed, a score never falls as the freeze moves on if and only if the records never lose value and none is worth less than -1. |
| `ContestRecords.ScoreIsWithin` | db/contest.go:274-321 | Whatever the queries return, a score lies between the least and the most that the rows ranked first up to the freeze allow: for summed problems the sums, over the subtasks something was sent for, of their least and of their greatest scaled values. |
| `ContestRecords.ExtremeResult` | db/contest.go:274-321 | Both bounds are reached, by one result for all contestants, problems and strategies at once. |
| `ContestRecords.SummedScoreGrowsIff` | db/contest.go:284-296 | On any rows, a summed score never falls as the freeze moves on if and only if, at every row sent for the problem, the greatest sum the rows ranked first up to the moment before it, or up to it, allow (-1 when nothing was sent) is at most the least sum they allow up to it. |
| `ContestRecords.SummedScoreGrows` | db/contest.go:284-296 | A summed score never falls when the records of no subtask lose value and none is negative, whatever the scales. |
| `ContestRecords.ScoreCanFall` | db/contest.go:277-282 | Two scales on one problem make a better submission lower the score. |
| `ContestRecords.SummedScoreCanFall` | db/contest.go:284-296 | A submission scored after the scale was halved, better on one subtask and as good on the other, lowers the sum from 70 to 50. |
| `ContestRecords.NegativeScoreFalls` | db/contest.go:306-313 | A first submission worth less than -1 lowers the score of someone who had sent nothing. |
| `ContestTotals.TotalsGrowIff` | db/contest.go:339-344 | On any rows, a contestant's total never falls as the freeze moves on if and only if, at every row they sent, the greatest total the rows up to the moment before it, or up to it, allow is at most the least total they allow up to it. |
| `ContestTotals.TotalCanFall` | db/contest.go:277-282 | A contest of one problem with two submissions, the better one sent after the scale was halved: the total falls from 50 to 30. |
| `ProblemLists.HydrateFullList` | sudoapi/pblist.go:202-229 | The loops build the tree of the specification, and the recursion ends on every graph because each call has fewer lists off its path. |
| `ProblemLists.NumSolvedFromPblists` | sudoapi/pblist.go:132-152 | Anonymous users get -1 everywhere, others 0 where nothing was counted. |
| `ProblemLists.LoadFullProblemList` | sudoapi/pblist.go:166-200 | The tree from the list asked for, or an error exactly when it was not loaded. |
| `ProblemListPaths.BranchesAreSimplePaths` | sudoapi/pblist.go:202-229 | On every graph, cyclic or not, the branches of the tree are exactly the simple paths of the sublist graph from the root. |
| `ProblemListPaths.BranchesInOrder` | sudoapi/pblist.go:210-219 | Without duplicate edges they come in sublist order, and each exactly once. |
| `ProblemListPaths.DepthOfTheTree` | sudoapi/pblist.go:209-223 | DepthLevel is the length of the longest simple path and never exceeds the number of lists. |
| `ProblemListPaths.AcyclicKeepsEverything` | sudoapi/pblist.go:202-229 | Without cycles nothing is cut: every walk from the root is a branch, so depth is the longest walk. |
| `ProblemListPaths.TreeIsFaithful` | sudoapi/pblist.go:202-229 | Every node shows its list's visible problems in order, its solved count (0 by default) and the depth below it; only the top is marked Root. |
| `ProblemListPaths.VisibleInOrder` | sudoapi/pblist.go:204-208 | A list shows, for exactly those of its ids that some visible problem has, in its order and with its repetitions, the first visible problem with the id. |
| `Admission.SlidingWindow` | sudoapi/submission.go:367-383 | On every run with a clock that never goes back in which a user's calls are held to a limit (TotalSubLimit, or UnverifiedSubLimit for unverified calls), no minute holds more than limit + 1 of their stored submissions, also under deletions, kicks and status changes. |
| `Admission.OneTooMany` | sudoapi/submission.go:375-378 | The bound is reached: at one moment exactly TotalSubLimit + 1 submissions get in. |
| `Admission.QuotaIsNeverExceeded` | sudoapi/submission.go:315-328 | On every run a contest holds at most MaxSubs submissions of a user to a problem, bypassing callers included. |
| `Admission.CooldownIsKept` | sudoapi/submission.go:404-417 | On every run two submissions of a contestant who is no tester are at least SubmissionCooldown apart, also under deletions and kicks. |
| `Admission.EmptyHolds` | sudoapi/submission.go:367-417 | An empty table meets all three bounds, so they hold on every run from it. |
| `Admission.BoundsFromEmpty` | sudoapi/submission.go:367-417 | Said of the stored rows, for every run from an empty table: the bound per minute, the quota and the cooldown. |
| `Admission.FirstCheckThatFails` | sudoapi/submission.go:339-433 | Said of the stored rows: the refusal given is that of the first check that fails, in the source's order, and a call gets in exactly when none does: fewer unfinished submissions than the limit, no more in the last minute than theirs, quota left, cooldown over. |
| `Admission.RemainingMeans` | sudoapi/submission.go:315-328 | Said of the stored rows: what remains is MaxSubs less the user's rows for the problem in the contest, and 1, unlimited, when MaxSubs is negative. |
| `Admission.LatestMeans` | db/submission.go:135-148 | Said of the stored rows: the latest time is that of one of the user's rows in the contest, and none is later. |
| `Admission.Judge.LastSubmissionTime` | db/submission.go:135-148 | The latest time among the user's rows in the contest, or none exactly without rows. |
| `Admission.Judge.RemainingSubmissionCount` | sudoapi/submission.go:315-328 | Whether there is a quota, and that something remains exactly while fewer than MaxSubs are stored. |
| `Admission.Judge.CreateSubmission` | sudoapi/submission.go:339-471 | The checks one after the other store exactly one row or none, with the call's author, problem, contest and time in `creating`, and name the refusal that the specification of the whole decision gives. |
| `Admission.Judge.ClearUserContestSubmissions` | db/submission.go:213-216 | A kick takes the user's rows out of the contest and keeps them otherwise. |
| `LogEntries.EqualIsErasedEquality` | sudoapi/admin.go:149-160 | Two entries are the same action exactly when their attribute trees are equal once object identities and zones are erased, with message, level and author id. |
| `LogEntries.SameActionMeans` | sudoapi/admin.go:149-160 | The same action has the same message, level, author id and keys, with values of the same kind that hold the same. |
| `LogEntries.EqualIsAnEquivalence` | sudoapi/admin.go:520-553 | Hence it is an equivalence on all finite trees. |
| `AuditWebhook.WebhookSender.EditLastMessage` | sudoapi/admin.go:275-285 | The count goes up whether or not the edit succeeds; the message shows it only if it does. |
| `AuditWebhook.WebhookSender.Send` | sudoapi/admin.go:287-323 | The fields and the channel after every combination of outcomes; an entry counts as sent exactly when the call reports success. |
| `AuditWebhook.StepReads` | sudoapi/admin.go:287-323 | What reading the channel gains with one call. |
| `AuditWebhook.DriftMeansFailedTwice` | sudoapi/admin.go:275-307 | The count has run ahead exactly when, since the last post or edit that went through, a call failed both ways. |
| `AuditWebhook.FaithfulIffNoEditAfterFailing` | sudoapi/admin.go:275-323 | On every run, decoding the messages gives the delivered entries in order, up to being the same action, if and only if no call that failed both ways was followed by a successful edit of the same message. |
| `AuditWebhook.NoDoubleFailureIsFaithful` | sudoapi/admin.go:275-323 | In particular on every run without such a failure, with counts that sum to the number of successful calls. |
| `AuditWebhook.CountRunsAhead` | sudoapi/admin.go:275-323 | A run of three calls on which two entries are sent and a count of three is shown. |
| `Strconv.AtoiItoa` | sudoapi/datastore.go:95-97 | A number within 64 bits is read back from its text. |
| `Strconv.AtoiAccepts` | web/handlers.go:236-240 | Only an optional sign and digits within 64 bits are read as a number. |
| `Strconv.AtoiSigned` | web/handlers.go:236-240 | A plus sign changes nothing and a minus sign the sign. |
| `TagQuery.ParseTags` | web/handlers.go:218-248 | The groups the query is parsed into, and that exactly the tags they mention are collected. |
| `TagQuery.TagGroups` | web/handlers.go:211-274 | Looking up the collected tags and dropping what is missing normalises the groups against all existing tags. |
| `TagQuery.QueryMeans` | web/handlers.go:214-248 | Said of the text: a query accepts a problem if and only if each of its pieces that names any tag does, by naming one of the problem's tags or, when marked, none; parts that are no numbers are skipped. |
| `TagQuery.ParsePrint` | web/handlers.go:214-248 | A query in the documented form is read as the groups it was written for. |
| `TagQuery.NormalisedMeaning` | db/problem.go:290-298 | For a problem whose tags exist, the parsed groups accept it if and only if the normalised ones do and no positive group lost all its tags. |
| `TagQuery.NormalisingKeepsMeaning` | web/handlers.go:264-273 | So normalising keeps the meaning of a query exactly when no positive group was lost or the problem is refused anyway. |
| `TagQuery.UnknownTagShowsEverything` | web/handlers.go:264-273 | Asking for the one tag that does not exist accepts every problem. |
| `StatementNames.ParseFormat` | sudoapi/attachment.go:275-281 | Parsing the formatted name of a well-formed variant gives the variant back, from the whole name. |
| `StatementNames.FindIsLeftmost` | sudoapi/attachment.go:215-233 | A match is an occurrence of a formatted variant: the leftmost, and the longest that starts there. |
| `StatementNames.FindIffOccurs` | sudoapi/attachment.go:215-225 | A name is accepted if and only if a formatted variant occurs in it. |
| `StatementNames.FormatsBackIffWhole` | sudoapi/attachment.go:275-286 | Formatting the parsed variant gives exactly the matched part, and the name itself if and only if all of it matched. |
| `StatementNames.LookedUpElsewhere` | sudoapi/attachment.go:283-286 | An accepted name that is not the name its statement is looked up under. |
| `StatementNames.ParseVariants` | sudoapi/attachment.go:217-240 | Exactly the attachments whose name is accepted, private ones only when asked for, are listed in order, each with its own variant, privacy, name and time. |
| `Bucket.WriteIsMapUpdate` | domain/datastore/local_bucket.go:129-144 | Over the pair of stored forms, a write sets one name and no other. |
| `Bucket.RemoveIsMapRemove` | domain/datastore/local_bucket.go:197-208 | A removal removes one name and no other. |
| `Bucket.LocalBucket.WriteFile` | domain/datastore/local_bucket.go:129-144 | Removes the compressed form and replaces the plain one. |
| `Bucket.LocalBucket.Reader` | domain/datastore/local_bucket.go:146-170 | Prefers the compressed form. |
| `Bucket.LocalBucket.RemoveFile` | domain/datastore/local_bucket.go:197-208 | Removes every form of a name. |
| `RenderCache.CacheNameOwner` | sudoapi/datastore.go:64-74 | The id cut from a cache file's name is the attachment it was saved for. |
| `RenderCache.DelAttachmentRenders` | sudoapi/datastore.go:59-85 | Leaves exactly the files that belong to other attachments, or to none. |
| `RenderCache.DeletionIsPrecise` | sudoapi/datastore.go:59-85 | Deleting one id's renderings empties its name and leaves what every other id reads. |
| `RenderCache.SavingKeepsFresh` | sudoapi/attachment.go:300-308 | Saving an up-to-date rendering keeps the whole cache up to date. |
| `RenderCache.ClearingRefreshes` | sudoapi/attachment.go:106-122 | Clearing an attachment that changed leaves nothing stale. |
| `RenderCache.Site.RenderedDesc` | sudoapi/attachment.go:283-343 | What is served is the data of an attachment with the owner and name asked for, or what rendering it now would give, page or failure, for its problem's id or its post's present slug; not found exactly without one. It stays so. |
| `RenderCache.Site.CreateAttachment` | sudoapi/attachment.go:66-104 | A new attachment has nothing cached. |
| `RenderCache.Site.UpdateAttachmentData` | sudoapi/attachment.go:114-122 | A change of data keeps every cached rendering up to date and all but its own in place. |
| `RenderCache.Site.RenameAttachment` | sudoapi/attachment.go:106-112 | So does a change of name. |
| `RenderCache.Site.DeleteAttachment` | sudoapi/attachment.go:155-165 | So does a deletion. |
| `RenderCache.Site.UpdateBlogPostSlug` | sudoapi/blogpost.go:57-82 | So does a new slug, on which the renderings of all the post's attachments depend; the others stay in place. |

## Left out

- HTTP handlers, middleware, templates, OAuth, mail, captcha and the command line: input and output only.
- Executing a submission, the sandbox, checkers and compilers: execution is one abstract step of the grading queue.
- Failing database calls, the closing of the wake channel and the shutdown of the feeder: every statement is assumed to succeed, except that a violated unique constraint is modelled in the reset.
- Permission predicates (who sees which submission, problem or contest): their answers are fields of the admission request. `Look` filters are left out of the filter compiler, because the SQL function behind them is not part of this model.
- `contest_icpc_view`, `contest_max_scores`, `max_scores` and the ICPC board: SQL bodies outside the Go code modelled here.
- The `generated` filter of the leaderboard and the per-problem cells of an entry: they only select or copy rows.
- Rounding of scores to a problem's precision: the generated column `computed_score` is taken as given.
- Concurrent calls of CreateSubmission: the checks and the insert are separate, and the bounds hold for calls one after the other.
- Markdown rendering, zstd and the regular-expression engine: uninterpreted functions, except the one statement pattern, which is modelled as the deterministic parser it amounts to.
- Cache eviction, renderings of images and buckets other than the attachment cache.
- Floating-point attributes that are not numbers: attribute values are compared as reals, so `NaN` is not modelled.
- RenderCache.Site.RenderedDesc: the two lookups of a name, for the id and for the data, are taken to find the same attachment; two attachments of one owner with one name are told apart by id.
- Admission.Judge.CreateSubmission: source files, their names and the submission's code are not stored.
- SubReset.Database.InitSubs: the columns `sent_ip`, `code_size` and the submission's files, which no statement of the reset touches, are not part of the row.
