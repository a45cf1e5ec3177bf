# Quiz attempt pipeline of quiz-generator, in Dafny

quiz-generator is a React and AWS Amplify web app for timed multiple-choice quizzes. This project models the app's quiz-attempt core:

- **Creating a quiz.** The app shuffles a question set, takes a prefix of it, and creates a quiz record.
- **Taking the quiz.** A countdown timer runs per question. Answers are submitted one at a time under a `submitting` guard. Each submission either advances to the next question or completes the quiz.
- **Reading results back.** Answers are listed page by page, sorted by question index, joined to their questions and summarised.
- **The dashboard.** It sorts the user's quizzes newest first, splits them by status and aggregates them.

About the data store:

- It is not modelled as a service. Every call is replaced by the response it returns: a `data`/`errors` pair, a sequence of listing pages, or one response per fetched id.
- `Math.random` is a sequence of draws.
- The clock is a string or millisecond parameter.

Modules, one per source file of the core, plus shared ones:

| module | file | models |
|---|---|---|
| `Wrappers` | wrappers.dfy | `Option`, `Result`, thrown errors |
| `Records` | records.dfy | the four schema records, the first-match search by id, the non-null filter of `questionIds`, counting correct answers |
| `Sorting` | sorting.dfy | `Array.prototype.sort` as a stable insertion sort, `Array.prototype.filter` |
| `Rounding` | rounding.dfy | `Math.round` of an integer quotient, percentages |
| `QuizStore` | quiz_store.dfy | src/hooks/useQuiz.ts: the store calls, paging, tolerant fetch, Fisher–Yates |
| `Timer` | timer.dfy | src/hooks/useTimer.ts: the timer state machine, including whether an interval is live, and `formatTime` |
| `TakeQuiz` | take_quiz.dfy | src/pages/TakeQuizPage.tsx: question ordering, the answer record, the page as an object |
| `Results` | results.dfy | src/pages/ResultsPage.tsx: the join, the figures, the option marks |
| `CreateQuiz` | create_quiz.dfy | src/pages/CreateQuizPage.tsx: count choices and quiz creation |
| `QuizList` | quiz_list.dfy | src/hooks/useQuizzes.ts: newest-first sort and status split |
| `Home` | home.dfy | src/pages/HomePage.tsx: dashboard aggregates |

How the model takes each kind of code:

- **Imperative code becomes imperative Dafny.**
  - `shuffleArray` is a loop over an array copy.
  - `getQuizAnswers` is the do-while over page tokens.
  - `getQuestionsByIds` is the for-of loop.
  - The timer hook is a class.
  - The quiz-taking page and the creation form are classes whose methods are the event handlers.
- **Each method is proved against a specification function.** For example, `GetQuizAnswers` returns `ListAnswers(pages)` and `ShuffleArray` returns `Shuffled(items, choices)`. The properties are proved about those functions.
- **Pure code becomes functions with lemmas:** the results page, the dashboard and the quiz list.
- **`handleSubmit` is split at its first `await`.** `BeginSubmit` is everything up to it; `ResumeSubmit` is the continuation, given the store's two answers.
- **The class invariant `QuizSession.Valid`** states:
  - the score is the number of correct answers the store accepted during this visit to the page (a resumed quiz starts again from 0, see Findings);
  - `submitting` holds exactly while a submission is pending;
  - every accepted answer refers to the question at its own index.

## Model

| member | source | states |
|---|---|---|
| Records.FindById | src/pages/TakeQuizPage.tsx:61 | `find` by id: the result is a listed record with the id; none exactly when no record has it (also the set lookup of src/pages/CreateQuizPage.tsx:34) |
| Records.FindByIdFirst | src/pages/TakeQuizPage.tsx:61 | the record found is the first one with the id |
| Records.ValidQuestionIds | src/pages/TakeQuizPage.tsx:57 | the kept ids are exactly the non-null entries, and there are no more of them than entries |
| Records.CountCorrectAppend | src/pages/TakeQuizPage.tsx:109 | appending an answer adds one to the count if it is correct and zero otherwise |
| Sorting.SortByPermutation | src/hooks/useQuiz.ts:111 | the sort returns a rearrangement of its input (same multiset, same length) |
| Sorting.SortBySorted | src/hooks/useQuiz.ts:111 | the sort returns its input in ascending key order |
| Sorting.SortByStable | src/hooks/useQuiz.ts:111 | elements with equal keys keep their input order |
| Sorting.FilterMembers | src/hooks/useQuizzes.ts:33-34 | an element is kept exactly when it is in the input and satisfies the predicate |
| Sorting.FilterSubsequence | src/hooks/useQuizzes.ts:33-34 | filtering keeps the input order |
| Sorting.FilterSorted | src/hooks/useQuizzes.ts:33-34 | filtering a sorted list gives a sorted list |
| Sorting.FilterExclusive | src/hooks/useQuizzes.ts:33-34 | two filters with exclusive predicates together keep at most the input's length |
| Rounding.RoundDiv | src/pages/ResultsPage.tsx:92 | the rounded quotient `r` satisfies `2a - b < 2rb <= 2a + b`: nearest integer, ties upward |
| Rounding.RoundDivUnique | src/pages/ResultsPage.tsx:92 | exactly one integer satisfies that bound |
| Rounding.RoundWithin | src/pages/ResultsPage.tsx:92 | rounding `t / n` for `t` within `[0, n * limit]` gives a value within `[0, limit]` |
| Rounding.Percent | src/pages/ResultsPage.tsx:89 | 0 for a non-positive whole; otherwise the rounded `100 * part / whole`, within `[0, 100]` when `0 <= part <= whole`, and 100 when `part == whole` |
| QuizStore.Call | src/hooks/useQuiz.ts:28-30 | the call succeeds iff there are no errors and there is data; a failure carries the first error's message, or the fallback message when the error list is absent or empty |
| QuizStore.NewQuiz | src/hooks/useQuiz.ts:17-26 | a created quiz is in progress at index 0, has no score, and stores the given ids, counts and time limit |
| QuizStore.CompletionEffect | src/hooks/useQuiz.ts:77-83 | completeQuiz sets the status to completed and writes the given score and the completion time; nothing else changes |
| QuizStore.ProgressEffect | src/hooks/useQuiz.ts:61-68 | updateQuizProgress changes only the current question index |
| QuizStore.FirstEnd | src/hooks/useQuiz.ts:96-109 | the do-while stops at the first page that has errors or no non-empty next token |
| QuizStore.GetQuizAnswers | src/hooks/useQuiz.ts:92-112 | fails iff a page it reads has errors; on success, returns every answer of the pages read, sorted by question index |
| QuizStore.GetQuestionsByIds | src/hooks/useQuiz.ts:114-129 | returns the fetched questions, skipping ids whose get errs or returns nothing; no more of them than ids |
| QuizStore.FetchedInIdOrder | src/hooks/useQuiz.ts:117-128 | the fetched questions' ids are a subsequence of the requested ids |
| QuizStore.FetchedAll | src/hooks/useQuiz.ts:117-128 | when every get succeeds, the fetched ids are exactly the requested ids |
| QuizStore.ShuffleFromPermutation | src/hooks/useQuiz.ts:133-136 | each stage of the descending swap loop keeps the multiset of elements |
| QuizStore.ShuffledPermutation | src/hooks/useQuiz.ts:131-138 | the shuffle returns a permutation of its input |
| QuizStore.ShuffleArray | src/hooks/useQuiz.ts:131-138 | returns a fresh array that is a permutation of the input; the input is untouched; for length at most 1 it equals the input |
| Timer.Commit | src/hooks/useTimer.ts:64-80 | a change of the count or of the running flag re-runs the effect, which arms an interval exactly when running with time left; no change keeps the interval unless it was cleared |
| Timer.Ticked | src/hooks/useTimer.ts:64-75 | a tick fires iff an interval is live at a count of 1 or less, and then stops at 0 with no interval; otherwise a live interval counts down by one and stays live while running; with no interval nothing changes; the result is consistent |
| Timer.Restarted | src/hooks/useTimer.ts:55-60 | restart sets the count and running; an interval is live afterwards iff the count is positive and the count or the running flag changed |
| Timer.RestartedIntended | src/hooks/useTimer.ts:55-62 | the corrected restart: running at the new count, with an interval live iff the count is positive |
| Timer.OperationsKeepConsistent | src/hooks/useTimer.ts:40-80 | start, pause, reset, restart and a tick never leave an interval live that the effect would not arm; pause and reset leave none |
| Timer.IdleStays | src/hooks/useTimer.ts:65 | with no live interval, time passing changes nothing and fires nothing |
| Timer.CountsDown | src/hooks/useTimer.ts:67-74 | with a live interval and before reaching zero, the count drops by exactly one per second |
| Timer.RunToExpiry | src/hooks/useTimer.ts:65-75 | running from `d > 0` with a live interval, after `d` seconds the count is 0, the timer is stopped and has fired once; nothing happens afterwards |
| Timer.FiresAtMostOnce | src/hooks/useTimer.ts:65-75 | an untouched timer fires at most once, never goes below zero, and is stopped at zero once it has fired |
| Timer.PauseFreezes | src/hooks/useTimer.ts:44-47 | pause keeps the count and drops the interval, and then time passing changes nothing |
| Timer.ResetStops | src/hooks/useTimer.ts:49-53 | reset stops the timer at the full duration, with no interval |
| Timer.StartOutcomes | src/hooks/useTimer.ts:40-42 | start keeps the count and sets running; it arms an interval on a stopped timer with time left, changes nothing on a running one, and a start at zero or below never ticks |
| Timer.RestartRuns | src/hooks/useTimer.ts:55-62 | a restart that changes the count or starts a stopped timer is the intended restart: it counts down from the given value, or from the duration, and fires after exactly that many seconds |
| Timer.RestartFreezes | src/hooks/useTimer.ts:55-60 | a restart to the count a running timer already has leaves no interval: the count stays put and never fires |
| Timer.RestartIntendedRuns | src/hooks/useTimer.ts:55-62 | the corrected restart always counts down from its count and fires once after that many seconds |
| Timer.CountdownTimer.constructor | src/hooks/useTimer.ts:23-24 | the count starts at the duration, running starts as `autoStart`, and the effect's first run arms an interval iff both allow it |
| Timer.CountdownTimer.Start | src/hooks/useTimer.ts:40-42 | the new state is `Started` of the old one |
| Timer.CountdownTimer.Pause | src/hooks/useTimer.ts:44-47 | the new state is `Paused` of the old one |
| Timer.CountdownTimer.Reset | src/hooks/useTimer.ts:49-53 | the new state is `ResetTo` of the old one and the duration |
| Timer.CountdownTimer.Restart | src/hooks/useTimer.ts:55-62 | the new state is `Restarted` of the old one, as written |
| Timer.CountdownTimer.Tick | src/hooks/useTimer.ts:66-74 | the new state and the expiry flag are those of `Ticked` |
| Timer.FormatTime | src/hooks/useTimer.ts:92-96 | for non-negative seconds: minutes, a colon, then exactly two digits of seconds |
| Timer.FormatTimeRoundTrip | src/hooks/useTimer.ts:92-96 | reading `m:ss` back gives `m * 60 + ss == seconds`, with `ss < 60` |
| TakeQuiz.OrderByIds | src/pages/TakeQuizPage.tsx:60-62 | no more questions than ids |
| TakeQuiz.OrderFromFetched | src/pages/TakeQuizPage.tsx:60-62 | every loaded question is one of the fetched ones |
| TakeQuiz.OrderFollowsIds | src/pages/TakeQuizPage.tsx:60-62 | the loaded questions follow the quiz's id order |
| TakeQuiz.OrderComplete | src/pages/TakeQuizPage.tsx:60-62 | when every id has a fetched question, none is dropped |
| TakeQuiz.LoadedInOrder | src/pages/TakeQuizPage.tsx:57-62 | with every get answered, the page shows exactly the quiz's non-null ids in order |
| TakeQuiz.BuildAnswer | src/pages/TakeQuizPage.tsx:94-107 | on timeout: no selection and not correct; the `-1` sentinel is stored as null; correct iff the answer index equals the correct index; time taken is the limit minus the count, within `[0, limit]` when the count is |
| TakeQuiz.QuizSession.CurrentQuestion | src/pages/TakeQuizPage.tsx:34 | defined iff the index is in range |
| TakeQuiz.QuizSession.IsLastQuestion | src/pages/TakeQuizPage.tsx:35 | with questions, true iff the current question exists and is the final one; with none, only at index -1 |
| TakeQuiz.QuizSession.PendingFor | src/pages/TakeQuizPage.tsx:93-97 | the record refers to the current question and index, and captures whether it is the last question and the score |
| TakeQuiz.QuizSession.constructor | src/pages/TakeQuizPage.tsx:51-88 | loads the questions in id order, starts at the stored index (default 0), arms the timer at the quiz's limit when there are questions, and redirects a completed quiz |
| TakeQuiz.QuizSession.SelectAnswer | src/pages/TakeQuizPage.tsx:219 | records the selection and changes nothing else |
| TakeQuiz.QuizSession.BeginSubmit | src/pages/TakeQuizPage.tsx:90-97 | a no-op unless there is a quiz, a current question and no submission in flight; otherwise raises `submitting` and fixes the record |
| TakeQuiz.QuizSession.ResumeSubmit | src/pages/TakeQuizPage.tsx:99-125 | a failed submit changes neither score nor index. An accepted one stores the answer and adds 1 exactly for a correct answer, so score ≤ accepted answers. On the last question it completes with the new score. Otherwise the index advances by one and stays in range and the timer is restarted as the hook does it, which leaves no interval when the timer was still running at the full limit; or the index stays put if the progress update fails. `submitting` always ends false |
| TakeQuiz.QuizSession.Advance | src/pages/TakeQuizPage.tsx:116-119 | moves to the given index with no selection and restarts the timer as the hook does; the timer stays consistent and the submission state is untouched |
| TakeQuiz.QuizSession.HandleSubmit | src/pages/TakeQuizPage.tsx:90-126 | a click reads the current count, so a recorded time lies within the limit; past the guard, each store outcome gives `ResumeSubmit`'s new score, answers, index, selection, completion, navigation and timer (including the freeze); a no-op changes nothing |
| TakeQuiz.QuizSession.Tick | src/pages/TakeQuizPage.tsx:38-48 | the timer steps as `Ticked`; on expiry, with the guard passed, a timeout submission starts with no selection and not correct; the index, score, answers, selection, completion and navigation stay as they were |
| TakeQuiz.QuizSession.ScreenAsWritten | src/pages/TakeQuizPage.tsx:128-144 | as written: the spinner exactly while the loading flag is set; "not found" only once it is cleared |
| TakeQuiz.QuizSession.ScreenShown | src/pages/TakeQuizPage.tsx:128-144 | "not found" exactly when there is no quiz or no question |
| TakeQuiz.ResumeUndercounts | src/pages/TakeQuizPage.tsx:32 | on a resumed quiz with earlier correct answers, the page's score is less than the correct answers of the whole quiz |
| TakeQuiz.ResumedScore | src/pages/TakeQuizPage.tsx:32 | the corrected start score: the earlier correct answers, at most their number |
| TakeQuiz.ResumedScoreComplete | src/pages/TakeQuizPage.tsx:109-113 | starting from the corrected score, the completed score counts every correct answer of the quiz |
| TakeQuiz.ExpiredAnswer | src/pages/TakeQuizPage.tsx:94-107 | the corrected timeout record: no selection, not correct, the whole limit taken |
| TakeQuiz.FirstTimeoutStale | src/pages/TakeQuizPage.tsx:38-42 | a first-question timeout records the limit minus 60, which is negative for a limit under 60 and differs from the corrected record |
| Records.CountCorrectConcat | src/pages/ResultsPage.tsx:90 | counting correct answers distributes over concatenation |
| TakeQuiz.MissingQuizSpins | src/pages/TakeQuizPage.tsx:53 | with no quiz, the page as written shows the spinner where "not found" is meant |
| Results.QuestionMap | src/pages/ResultsPage.tsx:43 | holds exactly the fetched ids, each mapped to a fetched question of that id |
| Results.QuestionMapLast | src/pages/ResultsPage.tsx:43 | with duplicate ids, the last question wins |
| Results.Combine | src/pages/ResultsPage.tsx:44-50 | no more results than answers |
| Results.CombinePairs | src/pages/ResultsPage.tsx:44-50 | each result pairs one of the answers with the map's question for that answer's id |
| Results.CombineKeepsKnown | src/pages/ResultsPage.tsx:44-50 | an answer whose question id is in the map is not dropped |
| Results.CombineMatches | src/pages/ResultsPage.tsx:44-50 | each result pairs an answer with the question of the answer's id; every answer whose question was fetched appears |
| Results.CombineKeepsOrder | src/pages/ResultsPage.tsx:44-50 | results keep the answers' order; answers without a question are dropped, not failed on |
| Results.CombineComplete | src/pages/ResultsPage.tsx:44-50 | with every question fetched, no answer is dropped |
| Results.CombineSorted | src/pages/ResultsPage.tsx:44-50 | answers in question order give results in question order |
| Results.CorrectCount | src/pages/ResultsPage.tsx:90 | at most the number of results |
| Results.CorrectCountOfAnswers | src/pages/ResultsPage.tsx:90 | the count equals the number of correct answers shown |
| Results.TotalTimeBounded | src/pages/ResultsPage.tsx:91 | with each time in `[0, limit]`, the total is in `[0, n * limit]` |
| Results.AvgTime | src/pages/ResultsPage.tsx:92 | 0 for no results; otherwise the rounded mean of the times, a missing time counting 0 |
| Results.AvgTimeBounded | src/pages/ResultsPage.tsx:91-92 | with each time in `[0, limit]`, so is the average |
| Results.Percentage | src/pages/ResultsPage.tsx:87-89 | 0 for a zero total, within `[0, 100]` when score ≤ total, 100 for a full score |
| Results.Incorrect | src/pages/ResultsPage.tsx:113 | incorrect plus correct is the quiz's total; non-negative when there are no more results than questions |
| Results.MarkOption | src/pages/ResultsPage.tsx:184-213 | the "Correct" badge iff the option's index is the correct index; a "Your Answer" badge iff it is the selected index, green iff the answer was correct |
| Results.Marks | src/pages/ResultsPage.tsx:183 | one mark per option |
| Results.CorrectBadgeUnique | src/pages/ResultsPage.tsx:184-185 | one option carries the "Correct" badge iff the correct index is in range, and never two |
| Results.TimeoutMarksNothing | src/pages/ResultsPage.tsx:217-221 | a timed-out answer marks no option as the user's |
| Results.UserMarkAgrees | src/pages/ResultsPage.tsx:193-213 | for an answer recorded as the handler records it, the green "Your Answer" is on the correct option and the red one is not |
| Results.RedirectsToQuiz | src/pages/ResultsPage.tsx:64-68 | a loaded quiz that is in progress, or has no status, is sent back to the quiz page |
| Results.ResultsScreenAsWritten | src/pages/ResultsPage.tsx:70-85 | as written: the spinner exactly while either loading flag is set; "not found" only once both are cleared |
| Results.ResultsScreenShown | src/pages/ResultsPage.tsx:70-85 | "not found" exactly when the quiz is missing once it is loaded |
| Results.LoadResults | src/pages/ResultsPage.tsx:31-61 | the results of the join, in question order, each paired with its question, or none if the listing fails; loading ends iff there is a quiz |
| Results.MissingQuizWaits | src/pages/ResultsPage.tsx:33 | with no quiz, the page as written shows the spinner where "not found" is meant |
| CreateQuiz.QuestionOptions | src/pages/CreateQuizPage.tsx:36-40 | exactly `1..min(max, 20)` in ascending order; empty iff the set has no questions |
| CreateQuiz.KeepAtMost | src/pages/CreateQuizPage.tsx:40 | keeps exactly the values up to the bound |
| CreateQuiz.Take | src/pages/CreateQuizPage.tsx:49 | the first `min(count, length)` elements |
| CreateQuiz.QuizParamsAsWritten | src/pages/CreateQuizPage.tsx:52-58 | the request the source sends, whose total is the requested count |
| CreateQuiz.CountExceedsQuestions | src/pages/CreateQuizPage.tsx:56 | three questions and the default count 5: the quiz claims five and a perfect run scores 60% |
| CreateQuiz.QuizParams | src/pages/CreateQuizPage.tsx:52-58 | the request carries the set's id and name, the chosen ids, a total equal to their number, and the time limit |
| CreateQuiz.PerfectRunFull | src/pages/CreateQuizPage.tsx:56 | with the corrected total, a perfect run scores 100% |
| CreateQuiz.ChosenFromSet | src/pages/CreateQuizPage.tsx:48-50 | the chosen questions are the first `min(count, n)` of a shuffle of the set's questions, each from the set, distinct when the set's ids are |
| CreateQuiz.SwapKeepsDistinct | src/hooks/useQuiz.ts:135 | a swap keeps ids distinct |
| CreateQuiz.ShuffleFromDistinct | src/hooks/useQuiz.ts:133-136 | the swap loop keeps ids distinct |
| CreateQuiz.CreateQuizForm.constructor | src/pages/CreateQuizPage.tsx:28-31 | no set selected, 5 questions, 60 seconds, not creating; start disabled |
| CreateQuiz.CreateQuizForm.SelectedSet | src/pages/CreateQuizPage.tsx:34 | a listed set with the selected id |
| CreateQuiz.CreateQuizForm.SelectSet | src/pages/CreateQuizPage.tsx:111-114 | selects the set and resets the count to 5 |
| CreateQuiz.CreateQuizForm.SetCount | src/pages/CreateQuizPage.tsx:173 | sets one of the offered counts |
| CreateQuiz.CreateQuizForm.SetTime | src/pages/CreateQuizPage.tsx:195 | sets one of the offered time limits |
| CreateQuiz.CreateQuizForm.StartQuiz | src/pages/CreateQuizPage.tsx:42-65 | sends nothing unless a truthy set id names a listed set. It sends `min(count, n)` distinct ids from a shuffle of the set's questions, with the requested count as the total, as line 56 does. On success it navigates to the new quiz; on failure it clears `creating` |
| QuizList.SortByRecency | src/hooks/useQuizzes.ts:16-20 | the sorted delivery holds the same quizzes |
| QuizList.SortByRecencyCorrect | src/hooks/useQuizzes.ts:16-20 | a permutation of the delivered quizzes, newest first (a missing time is 0), stable for equal times |
| QuizList.Running | src/hooks/useQuizzes.ts:33 | in-progress quizzes only, in list order |
| QuizList.CompletedOf | src/hooks/useQuizzes.ts:34 | completed quizzes only, in list order |
| QuizList.PartitionCorrect | src/hooks/useQuizzes.ts:33-34 | running is exactly the in-progress quizzes and completed exactly the completed ones, in list order, disjoint, together no more than all |
| QuizList.PartitionNewestFirst | src/hooks/useQuizzes.ts:33-34 | both lists of a sorted delivery are newest first |
| Home.TotalQuestions | src/pages/HomePage.tsx:10-13 | the sum of the question counts: non-negative when each count is, a single quiz's own count |
| Home.TotalCorrect | src/pages/HomePage.tsx:14-17 | the sum of the scores, a missing score counting 0: non-negative when each score is, a single quiz's own score |
| Home.AverageScore | src/pages/HomePage.tsx:18-20 | 0 when the total is not positive; otherwise the rounded `100 * correct / total` |
| Home.TotalsBounded | src/pages/HomePage.tsx:10-17 | each score within its count bounds the total correct by the total questions |
| Home.AverageScoreBounded | src/pages/HomePage.tsx:10-20 | the average is within `[0, 100]` when each quiz's score is within its count |
| Home.TotalsOverCompleted | src/pages/HomePage.tsx:10-17 | the totals sum over completed quizzes only, a missing score counting 0 |
| Home.RecentResults | src/pages/HomePage.tsx:105 | the first `min(5, n)` completed quizzes |
| Home.RecentAreNewest | src/pages/HomePage.tsx:105 | no completed quiz left out is newer than one shown |
| Home.QuizPercentage | src/pages/HomePage.tsx:124 | no number for a zero total; otherwise the rounded percentage, for either sign of the total |
| Home.ContinueTarget | src/pages/HomePage.tsx:85-86 | present iff there is a running quiz, and then the first one |
| Home.ContinueNewest | src/pages/HomePage.tsx:85-86 | "Continue" goes to the newest running quiz |

## Findings

| source | as written | input that shows it | evidently intended | confidence | as-written member | corrected member |
|---|---|---|---|---|---|---|
| src/pages/CreateQuizPage.tsx:56 | the created quiz's total is the requested count, which stays at 5 after a set is selected (line 113) whatever the set's size | a set of 3 questions with the default count: 3 ids are stored with a total of 5, so a perfect run shows 60% and 2 incorrect (`CreateQuiz.CountExceedsQuestions`) | the total is the number of ids in the quiz | high; not executed | CreateQuiz.QuizParamsAsWritten | CreateQuiz.QuizParams |
| src/pages/TakeQuizPage.tsx:53 | question loading returns before clearing the loading flag when no quiz was found | an id the store does not know: the quiz is null and the page shows its spinner forever (`TakeQuiz.MissingQuizSpins`) | the "Quiz not found" screen of lines 136-143 | high; not executed | TakeQuiz.QuizSession.ScreenAsWritten | TakeQuiz.QuizSession.ScreenShown |
| src/pages/ResultsPage.tsx:33 | results loading returns before clearing the loading flag when no quiz was found | an id the store does not know: the spinner stays and "Quiz not found." is never shown (`Results.MissingQuizWaits`) | the "Quiz not found." screen of lines 78-85 | high; not executed | Results.ResultsScreenAsWritten | Results.ResultsScreenShown |
| src/hooks/useTimer.ts:55-60 | restart clears the interval and then sets the count and running; when both already hold those values nothing changes, so the effect of lines 64-80 does not re-run and no interval is armed | a non-last question answered, with `submitAnswer` and `updateQuizProgress` resolved, before the first tick: src/pages/TakeQuizPage.tsx:78 restarts a timer that is running at the full limit, which then never counts down or expires, on this and every later question (`Timer.RestartFreezes`) | every restart counts down from its count | high; not executed | Timer.Restarted | Timer.RestartedIntended |
| src/pages/TakeQuizPage.tsx:32 | the score starts at 0 on every visit, while line 64 restores the stored index | a quiz continued from the dashboard after one correct answer, then finished with all correct: the completed score leaves out the first answer, so the results page's percentage (ResultsPage.tsx:87-89) disagrees with its "Correct" count (line 90) (`TakeQuiz.ResumeUndercounts`) | the page starts from the correct answers already stored (`TakeQuiz.ResumedScoreComplete`) | high; not executed | TakeQuiz.ResumeUndercounts | TakeQuiz.ResumedScore |
| src/pages/TakeQuizPage.tsx:38-42 | `handleTimeExpire` is memoised on `submitting` and `currentQuestion`, so the first question's handler belongs to the render where the questions arrived; the hook's count there is still 60, its initial state from the first render without a quiz (useTimer.ts:23) | a quiz with a 30-second limit whose first question times out: the record says -30 seconds where 30 were used (`TakeQuiz.FirstTimeoutStale`) | a timeout records the whole limit (`TakeQuiz.ExpiredAnswer`) | medium; not executed | TakeQuiz.FirstTimeoutStale | TakeQuiz.ExpiredAnswer |

The corrected members sit beside the as-written ones and carry the intended properties (`CreateQuiz.PerfectRunFull`, `Timer.RestartIntendedRuns`, `TakeQuiz.ResumedScoreComplete`). The form and the quiz-taking page keep the source's behaviour: `CreateQuiz.CreateQuizForm.StartQuiz` sends the as-written request, and `TakeQuiz.QuizSession` restarts its timer as the hook does and starts its score at 0.

## Left out

- Asynchrony and React scheduling. Each `await` is a step boundary and each store response is an input. The race between a timer expiry and a click is modelled only through the `submitting` guard. Effects run once, when the quiz record arrives: a later change of `questionIds` reloading the questions is not modelled.
- TakeQuiz.QuizSession.Tick: the count a timed-out submission records is a parameter, and no bound on it is claimed. `handleTimeExpire` is memoised on `submitting` and `currentQuestion` only, so it sees the count of the render where one of them last changed. On the first question that count is 60 (Findings). On later questions it depends on how React batches the renders around the move, which is not modelled.
- TakeQuiz.QuizSession.constructor: the timer is created with the quiz's time limit. The hook's first count comes from its first render, before the quiz arrives, where the limit defaults to 60. The two differ only for a quiz with no questions, whose timer is never armed.
- Rendering and navigation. Navigation is a flag or the id navigated to. The option letters, badge colours, labels and progress bar are not modelled. Date display is not modelled.
- Floating point. The source divides and multiplies in IEEE doubles before `Math.round`. The model rounds the exact quotient. The two can differ by one when the double product lands just below an exact half.
- Dates. `createdAt` is taken as epoch milliseconds. Parsing date strings is not modelled, nor an unparsable date that would make the comparator return NaN. `new Date().toISOString()` is a parameter.
- `Math.random`. The shuffle's draws are an input with `choices[i] <= i`. Whether the shuffle is uniform is not claimed.
- The data store itself. Filters, the page-size limit, owner authorisation and the `observeQuery` subscription are not modelled. A rejected promise, such as a network failure, is not modelled either; only `data`/`errors` responses are.
- QuizStore.GetQuizAnswers: requires that some page ends the listing. A store that returns a non-empty next token forever makes the source loop forever; that case is not modelled.
- The `?? 0` and `?? 1` fallbacks on `totalQuestions`, and the `?? 0` on `questionIndex`, are not modelled. The schema makes those fields required, so the model's records carry them as plain integers.
- The question-set hooks of src/hooks/useQuestionSets.ts are not modelled. The set list and a set's questions are inputs to the form. So is showing a previous set's questions while a new set loads.
- The submit button's disabled state (no selection, or submitting) is a predicate. `HandleSubmit`, like the handler, does not depend on it.
- Timer.FormatTime: its properties are stated for non-negative seconds only. For negative input the function follows the source's floor and truncated remainder, but the contract says nothing.
- `useQuiz(...).refetch` is not modelled; the core never calls it.
