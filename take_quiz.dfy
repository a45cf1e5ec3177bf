/** The quiz-taking page, src/pages/TakeQuizPage.tsx: question ordering, the
    answer record built by `handleSubmit`, and the page's state as an object
    whose methods are the page's event handlers. Each `await` in `handleSubmit`
    splits it: `BeginSubmit` is the part before the first `await`,
    `ResumeSubmit` the rest once the store has answered, so that a second
    submission arriving in between meets the `submitting` guard. */
module TakeQuiz {
  import opened Wrappers
  import opened Records
  import opened Sorting
  import opened QuizStore
  import opened Timer

  // ---------------------------------------------------- question ordering

  /** loadQuestions (TakeQuizPage.tsx:60-62): the fetched questions put in
      `questionIds` order; an id with no fetched question is dropped. */
  function OrderByIds(questionIds: seq<Option<string>>, fetched: seq<Question>): (r: seq<Question>)
    ensures |r| <= |questionIds|
  {
    if questionIds == [] then []
    else
      var found := FindById(fetched, QuestionId, questionIds[0]);
      (if found.Some? then [found.value] else []) + OrderByIds(questionIds[1..], fetched)
  }

  /** Every loaded question is one of the fetched ones. */
  lemma {:induction false} OrderFromFetched(questionIds: seq<Option<string>>, fetched: seq<Question>)
    ensures forall q :: q in OrderByIds(questionIds, fetched) ==> q in fetched
  {
    if questionIds != [] {
      OrderFromFetched(questionIds[1..], fetched);
      var found := FindById(fetched, QuestionId, questionIds[0]);
      var head := if found.Some? then [found.value] else [];
      assert OrderByIds(questionIds, fetched) == head + OrderByIds(questionIds[1..], fetched);
    }
  }

  /** The loaded questions follow the quiz's id order. */
  lemma {:induction false} OrderFollowsIds(questionIds: seq<Option<string>>, fetched: seq<Question>)
    ensures IsSubsequence(Ids(OrderByIds(questionIds, fetched)), ValidQuestionIds(questionIds))
  {
    if questionIds != [] {
      OrderFollowsIds(questionIds[1..], fetched);
      var found := FindById(fetched, QuestionId, questionIds[0]);
      var rest := OrderByIds(questionIds[1..], fetched);
      if found.Some? {
        assert Ids(OrderByIds(questionIds, fetched)) == [found.value.id] + Ids(rest);
        assert ValidQuestionIds(questionIds) == [found.value.id] + ValidQuestionIds(questionIds[1..]);
      } else {
        assert OrderByIds(questionIds, fetched) == rest;
        SubsequenceSkip(Ids(rest), ValidQuestionIds(questionIds[1..]),
                        if questionIds[0].Some? then [questionIds[0].value] else []);
      }
    }
  }

  lemma {:induction false} SubsequenceSkip<T>(a: seq<T>, b: seq<T>, extra: seq<T>)
    requires IsSubsequence(a, b)
    ensures IsSubsequence(a, extra + b)
    decreases |extra|
  {
    if extra != [] {
      SubsequenceSkip(a, b, extra[1..]);
      assert extra + b != [];
      assert (extra + b)[1..] == extra[1..] + b;
    } else {
      assert extra + b == b;
    }
  }

  /** When every listed id has a fetched question, none is dropped. */
  lemma {:induction false} OrderComplete(questionIds: seq<Option<string>>, fetched: seq<Question>)
    requires forall id :: Some(id) in questionIds ==> id in Ids(fetched)
    ensures Ids(OrderByIds(questionIds, fetched)) == ValidQuestionIds(questionIds)
  {
    if questionIds != [] {
      var tail := questionIds[1..];
      forall id | Some(id) in tail ensures id in Ids(fetched) {
        var i :| 0 <= i < |tail| && tail[i] == Some(id);
        assert questionIds[i + 1] == Some(id);
      }
      OrderComplete(tail, fetched);
      if questionIds[0].Some? {
        assert questionIds[0] == Some(questionIds[0].value);
        FoundWhenListed(fetched, questionIds[0].value);
      }
      OrderStep(questionIds, fetched);
    }
  }

  /** One step of OrderByIds, for a head id that is absent or found. */
  lemma OrderStep(questionIds: seq<Option<string>>, fetched: seq<Question>)
    requires questionIds != []
    requires questionIds[0].Some? ==> FindById(fetched, QuestionId, questionIds[0]).Some?
    ensures Ids(OrderByIds(questionIds, fetched)) ==
      (if questionIds[0].Some? then [questionIds[0].value] else []) + Ids(OrderByIds(questionIds[1..], fetched))
  {
    var found := FindById(fetched, QuestionId, questionIds[0]);
    var head := if found.Some? then [found.value] else [];
    var rest := OrderByIds(questionIds[1..], fetched);
    assert OrderByIds(questionIds, fetched) == head + rest;
    if found.Some? {
      assert questionIds[0] == Some(QuestionId(found.value)) == Some(found.value.id);
      assert Ids(head) == [questionIds[0].value];
    }
    IdsAppend(head, rest);
  }

  lemma IdsAppend(a: seq<Question>, b: seq<Question>)
    ensures Ids(a + b) == Ids(a) + Ids(b)
  {
  }

  lemma {:induction false} FoundWhenListed(fetched: seq<Question>, id: string)
    requires id in Ids(fetched)
    ensures FindById(fetched, QuestionId, Some(id)).Some?
  {
    var i :| 0 <= i < |fetched| && Ids(fetched)[i] == id;
    assert fetched[i] in fetched;
  }

  /** With a store that answers every get, the page shows exactly the quiz's
      non-null question ids, in order. */
  lemma LoadedInOrder(questionIds: seq<Option<string>>, responses: seq<Response<Question>>)
    requires AnswersIds(ValidQuestionIds(questionIds), responses) && AllFetched(responses)
    ensures Ids(OrderByIds(questionIds, Fetched(responses))) == ValidQuestionIds(questionIds)
  {
    FetchedAll(ValidQuestionIds(questionIds), responses);
    OrderComplete(questionIds, Fetched(responses));
  }

  // ------------------------------------------------------ the answer record

  /** `answerIndex` (TakeQuizPage.tsx:94): absent on timeout, otherwise the
      selected option, `-1` when nothing is selected. */
  function AnswerIndex(timeout: bool, selected: Option<int>): Option<int> {
    if timeout then None else Some(selected.GetOr(-1))
  }

  /** The record handleSubmit hands to submitAnswer (TakeQuizPage.tsx:94-107). */
  function BuildAnswer(quizId: string, q: Question, index: int, timeout: bool,
                       selected: Option<int>, timePerQuestion: int, timeRemaining: int): (a: QuizAnswer)
    ensures a.quizId == quizId && a.questionId == q.id && a.questionIndex == index
    ensures timeout ==> a.selectedIndex.None? && !a.isCorrect
    ensures !timeout && selected.None? ==> a.selectedIndex.None?
    ensures a.isCorrect <==> !timeout && selected.GetOr(-1) == q.correctIndex
    ensures q.correctIndex >= 0 ==> (a.isCorrect <==> a.selectedIndex == Some(q.correctIndex))
    ensures a.timeTaken == Some(timePerQuestion - timeRemaining)
    ensures 0 <= timeRemaining <= timePerQuestion ==> 0 <= a.timeTaken.value <= timePerQuestion
  {
    var answerIndex := AnswerIndex(timeout, selected);
    var isCorrect := answerIndex.Some? && answerIndex.value == q.correctIndex;
    QuizAnswer(quizId, q.id, index,
               if answerIndex == Some(-1) then None else answerIndex,
               isCorrect, Some(timePerQuestion - timeRemaining))
  }

  /** What `handleSubmit` keeps across its `await`s: the record it submits and
      the values its closure captured. */
  datatype Pending = Pending(answer: QuizAnswer, quizId: string, index: int, wasLast: bool, baseScore: int)

  /** Every answer belongs to the quiz and names the question at its index. */
  ghost predicate AnswersRefer(answers: seq<QuizAnswer>, quiz: Option<Quiz>, questions: seq<Question>) {
    forall a :: a in answers ==>
      quiz.Some? && a.quizId == quiz.value.id && 0 <= a.questionIndex < |questions|
      && a.questionId == questions[a.questionIndex].id
  }

  lemma AnswersReferAppend(answers: seq<QuizAnswer>, a: QuizAnswer, quiz: Option<Quiz>, questions: seq<Question>)
    requires AnswersRefer(answers, quiz, questions)
    requires quiz.Some? && a.quizId == quiz.value.id && 0 <= a.questionIndex < |questions|
    requires a.questionId == questions[a.questionIndex].id
    ensures AnswersRefer(answers + [a], quiz, questions)
  {
  }

  /** The top-level branch of the page's rendering (TakeQuizPage.tsx:128-144). */
  datatype Screen = Spinner | NotFound | Asking(index: int)

  /** The page for one quiz id, from the moment the quiz record has been
      fetched. */
  class QuizSession {
    const quiz: Option<Quiz>
    const questions: seq<Question>
    const loadingQuestions: bool
    const timer: CountdownTimer
    var currentIndex: int
    var selectedAnswer: Option<int>
    var submitting: bool
    var score: int
    var pending: Option<Pending>
    /** The answers the store accepted, in submission order. */
    var stored: seq<QuizAnswer>
    /** The score sent by an accepted completeQuiz. */
    var completedWith: Option<int>
    var navigatedToResults: bool

    /** `quiz?.timePerQuestion ?? 60`. */
    function TimePerQuestion(): int
      reads this
    {
      if quiz.Some? then quiz.value.timePerQuestion else 60
    }

    /** `questions[currentIndex]`, undefined out of range. */
    function CurrentQuestion(): (q: Option<Question>)
      reads this
      ensures q.Some? <==> 0 <= currentIndex < |questions|
      ensures q.Some? ==> q.value == questions[currentIndex]
    {
      if 0 <= currentIndex < |questions| then Some(questions[currentIndex]) else None
    }

    /** `currentIndex === questions.length - 1` (line 35): the shown
        question is the final one; with no questions it holds only at -1. */
    function IsLastQuestion(): (b: bool)
      reads this
      ensures questions != [] ==> (b <==> CurrentQuestion().Some? && currentIndex + 1 == |questions|)
      ensures b && questions != [] ==> CurrentQuestion() == Some(questions[|questions| - 1])
      ensures questions == [] ==> (b <==> currentIndex == -1)
    {
      currentIndex == |questions| - 1
    }

    /** The submit button is disabled (line 238). */
    predicate SubmitDisabled()
      reads this
    {
      selectedAnswer.None? || submitting
    }

    /** Whether handleSubmit gets past its guard (TakeQuizPage.tsx:91); the
        timer's handler checks the same (lines 38-42). */
    predicate CanSubmit()
      reads this
    {
      quiz.Some? && CurrentQuestion().Some? && !submitting
    }

    ghost predicate Valid()
      reads this, timer
    {
      && timer.duration == TimePerQuestion()
      && Consistent(timer.State())
      && (submitting <==> pending.Some?)
      && score == CountCorrect(stored)
      && AnswersRefer(stored, quiz, questions)
      && (pending.Some? ==>
            var p := pending.value;
            && quiz.Some? && p.quizId == quiz.value.id
            && p.index == currentIndex && 0 <= p.index < |questions|
            && p.wasLast == (p.index == |questions| - 1) && p.baseScore == score
            && p.answer.quizId == p.quizId
            && p.answer.questionIndex == p.index && p.answer.questionId == questions[p.index].id)
      && (|questions| > 0 ==>
            timer.timeRemaining == TimePerQuestion() || 0 <= timer.timeRemaining <= TimePerQuestion())
    }

    /** What handleSubmit would record now. */
    function PendingFor(timeout: bool, shownRemaining: int): (p: Pending)
      reads this
      requires quiz.Some? && CurrentQuestion().Some?
      ensures p.answer.questionIndex == currentIndex && p.answer.questionId == questions[currentIndex].id
      ensures p.wasLast <==> currentIndex == |questions| - 1
      ensures p.baseScore == score && p.quizId == quiz.value.id
    {
      Pending(BuildAnswer(quiz.value.id, questions[currentIndex], currentIndex, timeout,
                          selectedAnswer, TimePerQuestion(), shownRemaining),
              quiz.value.id, currentIndex, IsLastQuestion(), score)
    }

    /** The page's first-render state, and what happens once the quiz record
        is known: loadQuestions (lines 51-73) with the store's answers to the
        per-id gets, then the timer effect (lines 76-81) and the redirect for a
        completed quiz (lines 84-88). */
    constructor (quiz: Option<Quiz>, responses: seq<Response<Question>>)
      requires quiz.Some? ==> |responses| == |ValidQuestionIds(quiz.value.questionIds)|
      ensures Valid()
      ensures this.quiz == quiz && !submitting && score == 0 && stored == [] && completedWith.None?
      ensures quiz.Some? ==> questions == OrderByIds(quiz.value.questionIds, Fetched(responses))
      ensures quiz.Some? ==> currentIndex == quiz.value.currentQuestionIndex.GetOr(0)
      ensures quiz.None? ==> questions == [] && currentIndex == 0
      ensures loadingQuestions <==> quiz.None?
      ensures |questions| > 0 ==> timer.State() == TimerState(TimePerQuestion(), true, TimePerQuestion() > 0)
      ensures |questions| == 0 ==> timer.State() == TimerState(TimePerQuestion(), false, false)
      ensures navigatedToResults <==> quiz.Some? && quiz.value.status == Some(Completed)
    {
      var qs: seq<Question> := [];
      if quiz.Some? {
        var fetched := GetQuestionsByIds(ValidQuestionIds(quiz.value.questionIds), responses);
        qs := OrderByIds(quiz.value.questionIds, fetched);
      }
      var timePerQuestion := if quiz.Some? then quiz.value.timePerQuestion else 60;
      this.quiz := quiz;
      questions := qs;
      loadingQuestions := quiz.None?;
      timer := new CountdownTimer(timePerQuestion, false);
      currentIndex := if quiz.Some? then quiz.value.currentQuestionIndex.GetOr(0) else 0;
      selectedAnswer := None;
      submitting := false;
      score := 0;
      pending := None;
      stored := [];
      completedWith := None;
      navigatedToResults := quiz.Some? && quiz.value.status == Some(Completed);
      new;
      if |qs| > 0 {
        timer.Restart(Some(timePerQuestion));
      }
    }

    /** A click on an option (lines 207, 219). */
    method SelectAnswer(index: int)
      requires Valid()
      modifies this
      ensures Valid()
      ensures selectedAnswer == Some(index)
      ensures currentIndex == old(currentIndex) && submitting == old(submitting) && score == old(score)
      ensures pending == old(pending) && stored == old(stored) && completedWith == old(completedWith)
      ensures navigatedToResults == old(navigatedToResults)
    {
      selectedAnswer := Some(index);
    }

    /** handleSubmit up to its first `await`: past the guard it raises
        `submitting` and fixes the record to submit. `shownRemaining` is the
        count in the render the calling handler belongs to. */
    method BeginSubmit(timeout: bool, shownRemaining: int) returns (started: bool)
      requires Valid()
      modifies this
      ensures Valid()
      ensures started == old(CanSubmit())
      ensures !started ==> pending == old(pending) && submitting == old(submitting)
      ensures started ==> submitting && pending == Some(old(PendingFor(timeout, shownRemaining)))
      ensures currentIndex == old(currentIndex) && score == old(score) && stored == old(stored)
      ensures selectedAnswer == old(selectedAnswer) && completedWith == old(completedWith)
      ensures navigatedToResults == old(navigatedToResults)
    {
      started := CanSubmit();
      if !started {
        return;
      }
      submitting := true;
      pending := Some(PendingFor(timeout, shownRemaining));
    }

    /** The rest of handleSubmit (lines 99-125), given what the store answers
        to submitAnswer and then to completeQuiz or updateQuizProgress. */
    method ResumeSubmit(submitResponse: Response<QuizAnswer>, followResponse: Response<Quiz>)
      requires Valid() && submitting
      modifies this, timer
      ensures Valid() && !submitting && pending.None?
      ensures score <= |stored|
      ensures var p := old(pending.value);
        var submitted := Call(submitResponse, SubmitFailed).Success?;
        var followed := Call(followResponse, if p.wasLast then CompleteFailed else ProgressFailed).Success?;
        && (!submitted ==>
              && score == old(score) && stored == old(stored) && currentIndex == old(currentIndex)
              && selectedAnswer == old(selectedAnswer) && completedWith == old(completedWith)
              && navigatedToResults == old(navigatedToResults) && timer.State() == old(timer.State()))
        && (submitted ==>
              && stored == old(stored) + [p.answer]
              && score == old(score) + (if p.answer.isCorrect then 1 else 0))
        && (submitted && p.wasLast ==>
              && currentIndex == old(currentIndex) && selectedAnswer == old(selectedAnswer)
              && completedWith == (if followed then Some(score) else old(completedWith))
              && navigatedToResults == (old(navigatedToResults) || followed)
              && timer.State() == old(timer.State()))
        && (submitted && !p.wasLast && followed ==>
              && currentIndex == old(currentIndex) + 1 && currentIndex < |questions|
              && selectedAnswer.None? && completedWith == old(completedWith)
              && navigatedToResults == old(navigatedToResults)
              && timer.State() == Restarted(old(timer.State()), timer.duration, Some(TimePerQuestion())))
        && ((submitted && !p.wasLast && followed && old(timer.isRunning)
             && old(timer.timeRemaining) == TimePerQuestion()) ==> !timer.live)
        && (submitted && !p.wasLast && !followed ==>
              && currentIndex == old(currentIndex) && selectedAnswer == old(selectedAnswer)
              && completedWith == old(completedWith) && navigatedToResults == old(navigatedToResults)
              && timer.State() == old(timer.State()))
    {
      var p := pending.value;
      var submitted := Call(submitResponse, SubmitFailed);
      if submitted.Success? {
        CountCorrectAppend(stored, p.answer);
        AnswersReferAppend(stored, p.answer, quiz, questions);
        stored := stored + [p.answer];
        var newScore := p.baseScore + (if p.answer.isCorrect then 1 else 0);
        score := newScore;
        if p.wasLast {
          var completed := Call(followResponse, CompleteFailed);
          if completed.Success? {
            completedWith := Some(newScore);
            navigatedToResults := true;
          }
        } else {
          var nextIndex := p.index + 1;
          var progressed := Call(followResponse, ProgressFailed);
          if progressed.Success? {
            Advance(nextIndex);
          }
        }
      }
      submitting := false;
      pending := None;
    }

    /** The move to the next question (lines 116-119) and the effect that
        this change of `currentIndex` triggers (lines 76-81). */
    method Advance(nextIndex: int)
      requires Consistent(timer.State())
      modifies this, timer
      ensures currentIndex == nextIndex && selectedAnswer.None?
      ensures timer.State() == Restarted(old(timer.State()), timer.duration, Some(TimePerQuestion()))
      ensures Consistent(timer.State())
      ensures unchanged(this`submitting, this`score, this`pending, this`stored)
      ensures unchanged(this`completedWith, this`navigatedToResults)
    {
      OperationsKeepConsistent(timer.State(), timer.duration, Some(TimePerQuestion()));
      currentIndex := nextIndex;
      selectedAnswer := None;
      timer.Restart(Some(TimePerQuestion()));
    }

    /** A click on the submit button: handleSubmit with the current count,
        when the store answers before anything else happens. */
    method HandleSubmit(timeout: bool, submitResponse: Response<QuizAnswer>, followResponse: Response<Quiz>)
      returns (started: bool)
      requires Valid()
      modifies this, timer
      ensures Valid() && started == old(CanSubmit())
      ensures !started ==>
        && submitting == old(submitting) && pending == old(pending)
        && score == old(score) && stored == old(stored) && currentIndex == old(currentIndex)
        && selectedAnswer == old(selectedAnswer) && completedWith == old(completedWith)
        && navigatedToResults == old(navigatedToResults) && timer.State() == old(timer.State())
      ensures started ==> !submitting && pending.None?
      ensures started && TimePerQuestion() >= 0 ==>
        var a := old(PendingFor(timeout, timer.timeRemaining)).answer;
        0 <= a.timeTaken.value <= TimePerQuestion()
      ensures started ==>
          var p := old(PendingFor(timeout, timer.timeRemaining));
          var submitted := Call(submitResponse, SubmitFailed).Success?;
          var followed := Call(followResponse, if p.wasLast then CompleteFailed else ProgressFailed).Success?;
          && (!submitted ==>
                && score == old(score) && stored == old(stored) && currentIndex == old(currentIndex)
                && selectedAnswer == old(selectedAnswer) && completedWith == old(completedWith)
                && navigatedToResults == old(navigatedToResults) && timer.State() == old(timer.State()))
          && (submitted ==>
                && stored == old(stored) + [p.answer]
                && score == old(score) + (if p.answer.isCorrect then 1 else 0))
          && (submitted && p.wasLast ==>
                && currentIndex == old(currentIndex) && selectedAnswer == old(selectedAnswer)
                && completedWith == (if followed then Some(score) else old(completedWith))
                && navigatedToResults == (old(navigatedToResults) || followed)
                && timer.State() == old(timer.State()))
          && (submitted && !p.wasLast && followed ==>
                && currentIndex == old(currentIndex) + 1 && currentIndex < |questions|
                && selectedAnswer.None? && completedWith == old(completedWith)
                && navigatedToResults == old(navigatedToResults)
                && timer.State() == Restarted(old(timer.State()), timer.duration, Some(TimePerQuestion())))
          && ((submitted && !p.wasLast && followed && old(timer.isRunning)
               && old(timer.timeRemaining) == TimePerQuestion()) ==> !timer.live)
          && (submitted && !p.wasLast && !followed ==>
                && currentIndex == old(currentIndex) && selectedAnswer == old(selectedAnswer)
                && completedWith == old(completedWith) && navigatedToResults == old(navigatedToResults)
                && timer.State() == old(timer.State()))
    {
      started := BeginSubmit(timeout, timer.timeRemaining);
      if started {
        ResumeSubmit(submitResponse, followResponse);
      }
    }

    /** One second passes. If the timer expires, its handler (lines 38-42)
        starts a timeout submission. That handler is memoised on `submitting`
        and `currentQuestion` only, so the count it records comes from the
        render in which one of them last changed: `shownRemaining`. */
    method Tick(shownRemaining: int) returns (expired: bool, started: bool)
      requires Valid()
      modifies this, timer
      ensures Valid()
      ensures TickOutcome(timer.State(), expired) == Ticked(old(timer.State()))
      ensures started <==> expired && old(CanSubmit())
      ensures started ==> submitting && pending == Some(old(PendingFor(true, shownRemaining)))
      ensures started ==> pending.value.answer.selectedIndex.None? && !pending.value.answer.isCorrect
      ensures started ==> pending.value.answer.timeTaken == Some(TimePerQuestion() - shownRemaining)
      ensures !started ==> pending == old(pending) && submitting == old(submitting)
      ensures currentIndex == old(currentIndex) && score == old(score) && stored == old(stored)
      ensures selectedAnswer == old(selectedAnswer) && completedWith == old(completedWith)
      ensures navigatedToResults == old(navigatedToResults)
    {
      var outcome := Ticked(timer.State());
      started := false;
      if outcome.expired {
        started := BeginSubmit(true, shownRemaining);
      }
      expired := timer.Tick();
    }

    /** The top-level branch of the page as written: `loadingQuestions`
        starts true and is cleared only after a quiz was found. */
    function ScreenAsWritten(): (s: Screen)
      reads this
      ensures s == Spinner <==> loadingQuestions
      ensures s == NotFound <==> !loadingQuestions && (quiz.None? || |questions| == 0)
      ensures s.Asking? ==> s.index == currentIndex && quiz.Some? && |questions| > 0
    {
      if loadingQuestions then Spinner
      else if quiz.None? || |questions| == 0 then NotFound
      else Asking(currentIndex)
    }

    /** The branch once a missing quiz also ends the loading state. */
    function ScreenShown(): (s: Screen)
      reads this
      ensures s == NotFound <==> quiz.None? || |questions| == 0
      ensures s.Asking? ==> s.index == currentIndex
    {
      if quiz.None? || |questions| == 0 then NotFound else Asking(currentIndex)
    }
  }

  /** For a quiz id the store does not know, the page as written spins forever. */
  lemma MissingQuizSpins(s: QuizSession)
    requires s.quiz.None? && s.loadingQuestions
    ensures s.ScreenAsWritten() == Spinner && s.ScreenShown() == NotFound
  {
  }

  // ------------------------------------------------------ resumed quizzes

  /** A quiz continued from the dashboard reopens this page, which restores
      the stored index (line 64) but starts its score at 0 (line 32). The
      correct answers of the earlier visit, `earlier`, are then missing from
      the score the page completes the quiz with (lines 109-113), although the
      results page counts them (ResultsPage.tsx:90). */
  lemma ResumeUndercounts(s: QuizSession, earlier: seq<QuizAnswer>)
    requires s.Valid() && CountCorrect(earlier) > 0
    ensures s.score < CountCorrect(earlier + s.stored)
  {
    CountCorrectConcat(earlier, s.stored);
  }

  /** The score a resumed page should start from: the correct answers the
      store already holds for the quiz. */
  function ResumedScore(earlier: seq<QuizAnswer>): (r: nat)
    ensures r <= |earlier|
  {
    CountCorrect(earlier)
  }

  /** Starting from `ResumedScore`, the score after this visit counts every
      correct answer of the quiz. */
  lemma ResumedScoreComplete(earlier: seq<QuizAnswer>, visit: seq<QuizAnswer>)
    ensures ResumedScore(earlier) + CountCorrect(visit) == CountCorrect(earlier + visit)
  {
    CountCorrectConcat(earlier, visit);
  }

  // ------------------------------------------------------ timeouts

  /** The count `useTimer` holds until its first restart. The page's first
      render has no quiz yet, so the hook's state starts from the default
      limit of 60 (useTimer.ts:23, TakeQuizPage.tsx:36). */
  const FirstRenderCount := 60

  /** The record a timeout should submit: the whole limit was used. */
  function ExpiredAnswer(quizId: string, q: Question, index: int, timePerQuestion: int): (a: QuizAnswer)
    ensures a.quizId == quizId && a.questionId == q.id && a.questionIndex == index
    ensures a.selectedIndex.None? && !a.isCorrect
    ensures a.timeTaken == Some(timePerQuestion)
  {
    BuildAnswer(quizId, q, index, true, None, timePerQuestion, 0)
  }

  /** `handleTimeExpire` for the first question is made in the render where
      the questions arrive, before the restart of lines 76-81 takes effect,
      and it is not remade until `submitting` changes. A timeout on the first
      question therefore records `T - 60`, negative for a limit under 60. */
  lemma FirstTimeoutStale(quizId: string, q: Question, index: int, timePerQuestion: int)
    requires 0 <= timePerQuestion < FirstRenderCount
    ensures var a := BuildAnswer(quizId, q, index, true, None, timePerQuestion, FirstRenderCount);
      a.timeTaken.value < 0 && a.timeTaken != ExpiredAnswer(quizId, q, index, timePerQuestion).timeTaken
  {
  }
}
