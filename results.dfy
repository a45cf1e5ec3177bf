/** The results page, src/pages/ResultsPage.tsx: pairing each stored answer
    with its question, the summary figures, and the marks on each option. */
module Results {
  import opened Wrappers
  import opened Records
  import opened Sorting
  import opened QuizStore
  import opened Rounding

  datatype QuestionResult = QuestionResult(question: Question, answer: QuizAnswer)

  /** `new Map(questions.map((q) => [q.id, q]))`: a later question with the
      same id replaces an earlier one. */
  function QuestionMap(questions: seq<Question>): (m: map<string, Question>)
    ensures forall id :: id in m <==> id in Ids(questions)
    ensures forall id :: id in m ==> m[id].id == id && m[id] in questions
  {
    if questions == [] then map[]
    else
      var last := questions[|questions| - 1];
      var init := questions[..|questions| - 1];
      assert questions == init + [last];
      assert forall id :: id in Ids(questions) <==> id in Ids(init) || id == last.id;
      QuestionMap(init)[last.id := last]
  }

  /** The map keeps the last question of each id. */
  lemma QuestionMapLast(questions: seq<Question>, i: nat)
    requires i < |questions|
    requires forall j :: i < j < |questions| ==> questions[j].id != questions[i].id
    ensures QuestionMap(questions)[questions[i].id] == questions[i]
    decreases |questions|
  {
    if i < |questions| - 1 {
      QuestionMapLast(questions[..|questions| - 1], i);
    }
  }

  /** The `answers.map(...).filter(...)` of loadResults (lines 43-50). */
  function Combine(answers: seq<QuizAnswer>, qmap: map<string, Question>): (r: seq<QuestionResult>)
    ensures |r| <= |answers|
  {
    if answers == [] then []
    else
      var a := answers[0];
      (if a.questionId in qmap then [QuestionResult(qmap[a.questionId], a)] else [])
        + Combine(answers[1..], qmap)
  }

  /** Each result pairs one of the answers with the map's question for that
      answer's id. */
  lemma {:induction false} CombinePairs(answers: seq<QuizAnswer>, qmap: map<string, Question>)
    ensures forall x :: x in Combine(answers, qmap) ==>
      x.answer in answers && x.answer.questionId in qmap && x.question == qmap[x.answer.questionId]
  {
    if answers != [] {
      CombinePairs(answers[1..], qmap);
      var a := answers[0];
      var rest := Combine(answers[1..], qmap);
      if a.questionId in qmap {
        assert Combine(answers, qmap) == [QuestionResult(qmap[a.questionId], a)] + rest;
      } else {
        assert Combine(answers, qmap) == rest;
      }
      assert forall b :: b in answers[1..] ==> b in answers;
    }
  }

  function AnswersOf(results: seq<QuestionResult>): (r: seq<QuizAnswer>)
    ensures |r| == |results| && forall i :: 0 <= i < |r| ==> r[i] == results[i].answer
  {
    seq(|results|, i requires 0 <= i < |results| => results[i].answer)
  }

  /** Each result pairs an answer with the question of that answer's id, and
      an answer is dropped exactly when no fetched question has its id. */
  lemma CombineMatches(answers: seq<QuizAnswer>, questions: seq<Question>)
    ensures forall x :: x in Combine(answers, QuestionMap(questions)) ==>
      x.question.id == x.answer.questionId && x.question in questions && x.answer in answers
    ensures forall a :: a in answers && a.questionId in Ids(questions) ==>
      a in AnswersOf(Combine(answers, QuestionMap(questions)))
  {
    CombinePairs(answers, QuestionMap(questions));
    CombineKeepsKnown(answers, QuestionMap(questions));
  }

  /** An answer whose id the map knows is not dropped. */
  lemma {:induction false} CombineKeepsKnown(answers: seq<QuizAnswer>, qmap: map<string, Question>)
    ensures forall a :: a in answers && a.questionId in qmap ==> a in AnswersOf(Combine(answers, qmap))
  {
    if answers != [] {
      CombineKeepsKnown(answers[1..], qmap);
      var rest := Combine(answers[1..], qmap);
      var head := if answers[0].questionId in qmap then [QuestionResult(qmap[answers[0].questionId], answers[0])] else [];
      assert Combine(answers, qmap) == head + rest;
      assert AnswersOf(head + rest) == AnswersOf(head) + AnswersOf(rest);
      assert answers == [answers[0]] + answers[1..];
    }
  }

  /** The results keep the stored answers' order. */
  lemma {:induction false} CombineKeepsOrder(answers: seq<QuizAnswer>, qmap: map<string, Question>)
    ensures IsSubsequence(AnswersOf(Combine(answers, qmap)), answers)
  {
    if answers != [] {
      CombineKeepsOrder(answers[1..], qmap);
      var rest := Combine(answers[1..], qmap);
      if answers[0].questionId in qmap {
        var x := QuestionResult(qmap[answers[0].questionId], answers[0]);
        assert AnswersOf([x] + rest) == [answers[0]] + AnswersOf(rest);
      } else {
        assert Combine(answers, qmap) == rest;
      }
    }
  }

  /** With every answer's question fetched, no answer is dropped. */
  lemma {:induction false} CombineComplete(answers: seq<QuizAnswer>, qmap: map<string, Question>)
    requires forall a :: a in answers ==> a.questionId in qmap
    ensures AnswersOf(Combine(answers, qmap)) == answers
  {
    if answers != [] {
      var head, tail := answers[0], answers[1..];
      assert answers == [head] + tail;
      assert head.questionId in qmap;
      CombineComplete(tail, qmap);
      var rest := Combine(tail, qmap);
      var x := QuestionResult(qmap[head.questionId], head);
      assert Combine(answers, qmap) == [x] + rest;
      assert AnswersOf([x] + rest) == [head] + AnswersOf(rest);
    }
  }

  function ResultOrder(r: QuestionResult): int {
    r.answer.questionIndex
  }

  /** Answers listed in question order give results in question order. */
  lemma {:induction false} CombineSorted(answers: seq<QuizAnswer>, qmap: map<string, Question>)
    requires SortedBy(answers, AnswerOrder)
    ensures SortedBy(Combine(answers, qmap), ResultOrder)
  {
    if answers != [] {
      CombineSorted(answers[1..], qmap);
      var rest := Combine(answers[1..], qmap);
      CombineKeepsOrder(answers[1..], qmap);
      forall i | 0 <= i < |rest| ensures answers[0].questionIndex <= rest[i].answer.questionIndex {
        SubsequenceMember(AnswersOf(rest), answers[1..], i);
      }
    }
  }

  lemma {:induction false} SubsequenceMember<T>(a: seq<T>, b: seq<T>, i: nat)
    requires IsSubsequence(a, b) && i < |a|
    ensures a[i] in b
    decreases |b|
  {
    if a[0] == b[0] && IsSubsequence(a[1..], b[1..]) {
      if i > 0 {
        SubsequenceMember(a[1..], b[1..], i - 1);
      }
    } else {
      SubsequenceMember(a, b[1..], i);
    }
  }

  // ------------------------------------------------------- summary figures

  /** `results.filter((r) => r.answer.isCorrect).length` (line 90). */
  function CorrectCount(results: seq<QuestionResult>): (n: nat)
    ensures n <= |results|
  {
    if results == [] then 0
    else (if results[0].answer.isCorrect then 1 else 0) + CorrectCount(results[1..])
  }

  /** The results page counts the correct answers it shows. */
  lemma {:induction false} CorrectCountOfAnswers(results: seq<QuestionResult>)
    ensures CorrectCount(results) == CountCorrect(AnswersOf(results))
  {
    if results != [] {
      CorrectCountOfAnswers(results[1..]);
      assert AnswersOf(results)[1..] == AnswersOf(results[1..]);
    }
  }

  /** The total of `timeTaken ?? 0` (line 91). */
  function TotalTime(results: seq<QuestionResult>): int {
    if results == [] then 0
    else results[0].answer.timeTaken.GetOr(0) + TotalTime(results[1..])
  }

  /** Every recorded time within `[0, limit]`. */
  ghost predicate TimesWithin(results: seq<QuestionResult>, limit: int) {
    forall i :: 0 <= i < |results| ==> 0 <= results[i].answer.timeTaken.GetOr(0) <= limit
  }

  lemma {:induction false} TotalTimeBounded(results: seq<QuestionResult>, limit: int)
    requires TimesWithin(results, limit)
    ensures 0 <= TotalTime(results) <= |results| * limit
  {
    if results != [] {
      assert TimesWithin(results[1..], limit) by {
        forall i | 0 <= i < |results[1..]| ensures 0 <= results[1..][i].answer.timeTaken.GetOr(0) <= limit {
          assert results[1..][i] == results[i + 1];
        }
      }
      TotalTimeBounded(results[1..], limit);
      assert results[0].answer.timeTaken.GetOr(0) <= limit;
      assert |results| * limit == limit + |results[1..]| * limit;
    }
  }

  /** `Math.round(totalTime / results.length)`, 0 with no results (line 92). */
  function AvgTime(results: seq<QuestionResult>): (r: int)
    ensures results == [] ==> r == 0
    ensures results != [] ==>
      2 * TotalTime(results) - |results| < 2 * r * |results| <= 2 * TotalTime(results) + |results|
  {
    if |results| > 0 then RoundDiv(TotalTime(results), |results|) else 0
  }

  /** With every time within the question's limit, so is the average. */
  lemma AvgTimeBounded(results: seq<QuestionResult>, limit: int)
    requires TimesWithin(results, limit)
    ensures results != [] ==> 0 <= AvgTime(results) <= limit
  {
    if results != [] {
      TotalTimeBounded(results, limit);
      RoundWithin(TotalTime(results), |results|, AvgTime(results), limit);
    }
  }

  /** The score as a rounded percentage of the quiz's question count (lines 87-89). */
  function Percentage(quiz: Quiz): (p: int)
    ensures 0 <= quiz.score.GetOr(0) <= quiz.totalQuestions ==> 0 <= p <= 100
    ensures quiz.totalQuestions <= 0 ==> p == 0
    ensures quiz.totalQuestions > 0 && quiz.score.GetOr(0) == quiz.totalQuestions ==> p == 100
  {
    Percent(quiz.score.GetOr(0), quiz.totalQuestions)
  }

  /** `total - correctCount` (line 113). */
  function Incorrect(quiz: Quiz, results: seq<QuestionResult>): (n: int)
    ensures n + CorrectCount(results) == quiz.totalQuestions
    ensures |results| <= quiz.totalQuestions ==> n >= 0
  {
    quiz.totalQuestions - CorrectCount(results)
  }

  /** The results page sends a quiz that is not completed back to the quiz
      page (lines 64-68). */
  predicate RedirectsToQuiz(quiz: Option<Quiz>): (b: bool)
    ensures b <==> quiz.Some? && (quiz.value.status.None? || quiz.value.status == Some(InProgress))
  {
    assert quiz.Some? && quiz.value.status.Some? ==> quiz.value.status.value.InProgress? || quiz.value.status.value.Completed?;
    quiz.Some? && quiz.value.status != Some(Completed)
  }

  // ------------------------------------------------------ option marks

  /** What one option of a result shows (lines 183-216): the "Correct"
      badge, and the "Your Answer" badge, green when the answer was correct. */
  datatype OptionMark = OptionMark(correctBadge: bool, yourAnswer: Option<bool>, muted: bool)

  function MarkOption(optIndex: int, r: QuestionResult): (m: OptionMark)
    ensures m.correctBadge <==> optIndex == r.question.correctIndex
    ensures m.yourAnswer.Some? <==> r.answer.selectedIndex == Some(optIndex)
    ensures m.yourAnswer.Some? ==> m.yourAnswer.value == r.answer.isCorrect
    ensures m.muted <==> !m.correctBadge && m.yourAnswer.None?
  {
    var isUserAnswer := r.answer.selectedIndex == Some(optIndex);
    var isCorrectAnswer := optIndex == r.question.correctIndex;
    OptionMark(isCorrectAnswer, if isUserAnswer then Some(r.answer.isCorrect) else None,
               !isCorrectAnswer && !isUserAnswer)
  }

  function Marks(r: QuestionResult): (ms: seq<OptionMark>)
    ensures |ms| == |r.question.options|
  {
    seq(|r.question.options|, i requires 0 <= i < |r.question.options| => MarkOption(i, r))
  }

  /** Exactly one option carries the "Correct" badge when the correct index
      is in range, and none otherwise. */
  lemma CorrectBadgeUnique(r: QuestionResult)
    ensures (exists i :: 0 <= i < |Marks(r)| && Marks(r)[i].correctBadge)
        <==> 0 <= r.question.correctIndex < |r.question.options|
    ensures forall i, j ::
      0 <= i < |Marks(r)| && 0 <= j < |Marks(r)| && Marks(r)[i].correctBadge && Marks(r)[j].correctBadge
      ==> i == j
  {
    if 0 <= r.question.correctIndex < |r.question.options| {
      assert Marks(r)[r.question.correctIndex].correctBadge;
    }
  }

  /** A timed-out answer marks no option as the user's and shows the
      timeout note (lines 217-221). */
  lemma TimeoutMarksNothing(r: QuestionResult)
    requires r.answer.selectedIndex.None?
    ensures forall i :: 0 <= i < |Marks(r)| ==> Marks(r)[i].yourAnswer.None?
  {
  }

  /** For an answer recorded as correct with a non-negative correct index,
      the user's option is the correct one and its badge is green. */
  lemma UserMarkAgrees(r: QuestionResult)
    requires r.question.correctIndex >= 0
    requires r.answer.isCorrect <==> r.answer.selectedIndex == Some(r.question.correctIndex)
    ensures forall i :: 0 <= i < |Marks(r)| && Marks(r)[i].yourAnswer == Some(true) ==>
      Marks(r)[i].correctBadge
    ensures forall i :: 0 <= i < |Marks(r)| && Marks(r)[i].yourAnswer == Some(false) ==>
      !Marks(r)[i].correctBadge
  {
  }

  // ------------------------------------------------------------ loading

  /** The top-level branch of the page (lines 70-85). */
  datatype ResultsScreen = Waiting | QuizMissing | Breakdown

  /** As written: `loading` starts true and loadResults returns before
      clearing it when there is no quiz. */
  function ResultsScreenAsWritten(loadingQuiz: bool, loading: bool, quiz: Option<Quiz>): (s: ResultsScreen)
    ensures s == Waiting <==> loadingQuiz || loading
    ensures s == QuizMissing <==> !loadingQuiz && !loading && quiz.None?
  {
    if loadingQuiz || loading then Waiting
    else if quiz.None? then QuizMissing
    else Breakdown
  }

  /** With the loading state ended for a missing quiz too. */
  function ResultsScreenShown(loadingQuiz: bool, quiz: Option<Quiz>): (s: ResultsScreen)
    ensures !loadingQuiz ==> (s == QuizMissing <==> quiz.None?)
    ensures s == Breakdown <==> !loadingQuiz && quiz.Some?
  {
    if loadingQuiz then Waiting else if quiz.None? then QuizMissing else Breakdown
  }

  /** What loadResults leaves, as a function of the store's answers. */
  function ResultsFor(quiz: Quiz, pages: seq<ListPage<QuizAnswer>>, responses: seq<Response<Question>>)
    : seq<QuestionResult>
    requires FirstEnd(pages) < |pages|
  {
    match ListAnswers(pages)
    case Failure(_) => []
    case Success(answers) => Combine(answers, QuestionMap(Fetched(responses)))
  }

  /** loadResults (lines 31-61) once the quiz record is known: `loading` is
      cleared only when there is a quiz; a failed listing leaves no results. */
  method LoadResults(quiz: Option<Quiz>, pages: seq<ListPage<QuizAnswer>>, responses: seq<Response<Question>>)
    returns (loading: bool, results: seq<QuestionResult>)
    requires quiz.Some? ==> FirstEnd(pages) < |pages|
    requires quiz.Some? ==> |responses| == |ValidQuestionIds(quiz.value.questionIds)|
    ensures loading <==> quiz.None?
    ensures quiz.None? ==> results == []
    ensures quiz.Some? ==> results == ResultsFor(quiz.value, pages, responses)
    ensures quiz.Some? ==> SortedBy(results, ResultOrder)
    ensures forall x :: x in results ==> x.question.id == x.answer.questionId
    ensures forall x :: x in results ==> x.question in Fetched(responses)
  {
    loading := true;
    results := [];
    if quiz.None? {
      return;
    }
    var answers := GetQuizAnswers(pages);
    var questions := GetQuestionsByIds(ValidQuestionIds(quiz.value.questionIds), responses);
    if answers.Success? {
      var qmap := QuestionMap(questions);
      results := Combine(answers.value, qmap);
      CombineSorted(answers.value, qmap);
      CombineMatches(answers.value, questions);
    }
    loading := false;
  }

  /** For a quiz id the store does not know, the page as written never
      leaves its spinner. */
  lemma MissingQuizWaits()
    ensures ResultsScreenAsWritten(false, true, None) == Waiting
    ensures ResultsScreenShown(false, None) == QuizMissing
  {
  }
}
