/** The quiz-creation form, src/pages/CreateQuizPage.tsx: the question-count
    choices, and starting a quiz from a shuffled selection of the chosen set's
    questions. */
module CreateQuiz {
  import opened Wrappers
  import opened Records
  import opened QuizStore
  import Rounding

  /** The time-limit choices (lines 18-23), in seconds. */
  const TimeOptions: seq<int> := [30, 60, 90, 120]
  /** The question count a newly selected set starts with. */
  const DefaultCount := 5
  const DefaultTime := 60
  /** The most questions the count selector offers. */
  const MaxOffered := 20

  /** `Array.from({ length: Math.min(maxQuestions, 20) }, (_, i) => i + 1)
      .filter((n) => n <= maxQuestions)` (lines 36-40). */
  function QuestionOptions(maxQuestions: nat): (r: seq<int>)
    ensures forall n :: n in r <==> 1 <= n <= Min(maxQuestions, MaxOffered)
    ensures |r| == Min(maxQuestions, MaxOffered)
    ensures forall i, j :: 0 <= i < j < |r| ==> r[i] < r[j]
    ensures r == [] <==> maxQuestions == 0
  {
    var offered := seq(Min(maxQuestions, MaxOffered), i => i + 1);
    assert forall n :: n in offered ==> n <= maxQuestions;
    assert forall n :: n in offered <==> 1 <= n <= Min(maxQuestions, MaxOffered) by {
      forall n ensures n in offered <==> 1 <= n <= Min(maxQuestions, MaxOffered) {
        if 1 <= n <= Min(maxQuestions, MaxOffered) {
          assert offered[n - 1] == n;
        }
      }
    }
    KeepAtMost(offered, maxQuestions)
  }

  /** The `.filter((n) => n <= maxQuestions)` step. */
  function KeepAtMost(s: seq<int>, bound: int): (r: seq<int>)
    ensures forall n :: n in r <==> n in s && n <= bound
    ensures (forall n :: n in s ==> n <= bound) ==> r == s
  {
    if s == [] then []
    else
      var rest := KeepAtMost(s[1..], bound);
      assert s == [s[0]] + s[1..] && s[0] in s;
      assert forall n :: n in s[1..] ==> n in s;
      (if s[0] <= bound then [s[0]] else []) + rest
  }

  /** The start button is disabled (line 214). */
  predicate StartDisabled(creating: bool, maxQuestions: nat) {
    creating || maxQuestions == 0
  }

  /** `shuffled.slice(0, count)` for the counts the form offers. */
  function Take<T>(s: seq<T>, count: nat): (r: seq<T>)
    ensures |r| == Min(count, |s|)
    ensures r == s[..|r|]
  {
    s[..Min(count, |s|)]
  }

  /** The request handleStartQuiz sends (lines 52-58), as written:
      `totalQuestions` is the requested count. */
  function QuizParamsAsWritten(qset: QuestionSet, chosen: seq<Question>, count: nat, timePerQuestion: int)
    : (p: CreateQuizParams)
    ensures p.questionSetId == qset.id && p.questionSetName == qset.name
    ensures p.questionIds == Ids(chosen) && p.totalQuestions == count
    ensures p.timePerQuestion == timePerQuestion
  {
    CreateQuizParams(qset.id, qset.name, Ids(chosen), count, timePerQuestion)
  }

  /** A set of three questions and the default count of five: the quiz
      has three questions but claims five, and a perfect run scores 60%. */
  lemma CountExceedsQuestions(qset: QuestionSet, shuffled: seq<Question>)
    requires |shuffled| == 3
    ensures var p := QuizParamsAsWritten(qset, Take(shuffled, DefaultCount), DefaultCount, DefaultTime);
      |p.questionIds| == 3 && p.totalQuestions == 5
      && Rounding.Percent(|p.questionIds|, p.totalQuestions) == 60
  {
    Rounding.RoundDivUnique(300, 5, 60);
  }

  /** The request with `totalQuestions` the number of questions the quiz
      really has. */
  function QuizParams(qset: QuestionSet, chosen: seq<Question>, timePerQuestion: int): (p: CreateQuizParams)
    ensures p.questionSetId == qset.id && p.questionSetName == qset.name
    ensures p.questionIds == Ids(chosen) && p.totalQuestions == |p.questionIds|
    ensures p.timePerQuestion == timePerQuestion
  {
    CreateQuizParams(qset.id, qset.name, Ids(chosen), |chosen|, timePerQuestion)
  }

  /** With the corrected request, answering every question correctly scores 100%. */
  lemma PerfectRunFull(qset: QuestionSet, chosen: seq<Question>, timePerQuestion: int)
    requires chosen != []
    ensures var p := QuizParams(qset, chosen, timePerQuestion);
      Rounding.Percent(|p.questionIds|, p.totalQuestions) == 100
  {
  }

  /** Distinct question ids stay distinct after shuffling and slicing, and each
      chosen question comes from the set. */
  lemma ChosenFromSet(questions: seq<Question>, choices: seq<nat>, count: nat)
    requires ValidChoices(choices, |questions|)
    ensures forall q :: q in Take(Shuffled(questions, choices), count) ==> q in questions
    ensures |Take(Shuffled(questions, choices), count)| == Min(count, |questions|)
    ensures Distinct(Ids(questions)) ==> Distinct(Ids(Take(Shuffled(questions, choices), count)))
  {
    var s := Shuffled(questions, choices);
    ShuffledPermutation(questions, choices);
    var t := Take(s, count);
    forall q | q in t ensures q in questions {
      assert q in multiset(s);
    }
    if Distinct(Ids(questions)) && questions != [] {
      ShuffleFromDistinct(questions, choices, |questions| - 1);
      forall i, j | 0 <= i < j < |t| ensures Ids(t)[i] != Ids(t)[j] {
        assert Ids(t)[i] == Ids(s)[i] && Ids(t)[j] == Ids(s)[j];
      }
    }
  }

  ghost predicate Distinct<T>(s: seq<T>) {
    forall i, j :: 0 <= i < j < |s| ==> s[i] != s[j]
  }

  /** A swap keeps question ids distinct. */
  lemma SwapKeepsDistinct(s: seq<Question>, i: nat, j: nat)
    requires i < |s| && j < |s| && Distinct(Ids(s))
    ensures Distinct(Ids(SwapAt(s, i, j)))
  {
    var t := SwapAt(s, i, j);
    forall p, q | 0 <= p < q < |t| ensures Ids(t)[p] != Ids(t)[q] {
      var p' := if p == i then j else if p == j then i else p;
      var q' := if q == i then j else if q == j then i else q;
      assert t[p] == s[p'] && t[q] == s[q'];
      if p' < q' {
        assert Ids(s)[p'] != Ids(s)[q'];
      } else {
        assert Ids(s)[q'] != Ids(s)[p'];
      }
    }
  }

  lemma {:induction false} ShuffleFromDistinct(s: seq<Question>, choices: seq<nat>, i: nat)
    requires i < |s| && ValidChoices(choices, |s|) && Distinct(Ids(s))
    ensures Distinct(Ids(ShuffleFrom(s, choices, i)))
    decreases i
  {
    if i > 0 {
      SwapKeepsDistinct(s, i, choices[i]);
      ShuffleFromDistinct(SwapAt(s, i, choices[i]), choices, i - 1);
    }
  }

  /** The form's state, from the moment the question sets have loaded. */
  class CreateQuizForm {
    const questionSets: seq<QuestionSet>
    var selectedSetId: Option<string>
    /** useQuestionsBySet's questions for the selected set. */
    var questions: seq<Question>
    var numQuestions: nat
    var timePerQuestion: int
    var creating: bool
    /** The quiz the page navigated to. */
    var startedQuiz: Option<string>

    ghost predicate Valid()
      reads this
    {
      numQuestions >= 1 && timePerQuestion in TimeOptions
    }

    function MaxQuestions(): nat
      reads this
    {
      |questions|
    }

    function SelectedSet(): (r: Option<QuestionSet>)
      reads this
      ensures r.Some? ==> r.value in questionSets && selectedSetId == Some(r.value.id)
    {
      FindById(questionSets, QuestionSetId, selectedSetId)
    }

    constructor (questionSets: seq<QuestionSet>)
      ensures Valid()
      ensures this.questionSets == questionSets && selectedSetId.None? && questions == []
      ensures numQuestions == DefaultCount && timePerQuestion == DefaultTime
      ensures !creating && startedQuiz.None?
      ensures StartDisabled(creating, MaxQuestions())
    {
      this.questionSets := questionSets;
      selectedSetId := None;
      questions := [];
      numQuestions := DefaultCount;
      timePerQuestion := DefaultTime;
      creating := false;
      startedQuiz := None;
    }

    /** A click on a set (lines 111-114), with the questions the set's
        listing returns. */
    method SelectSet(id: string, setQuestions: seq<Question>)
      requires Valid()
      modifies this
      ensures Valid()
      ensures selectedSetId == Some(id) && numQuestions == DefaultCount && questions == setQuestions
      ensures timePerQuestion == old(timePerQuestion) && creating == old(creating)
      ensures startedQuiz == old(startedQuiz)
    {
      selectedSetId := Some(id);
      numQuestions := DefaultCount;
      questions := setQuestions;
    }

    /** A choice from the count selector. */
    method SetCount(n: nat)
      requires Valid() && n in QuestionOptions(MaxQuestions())
      modifies this
      ensures Valid() && numQuestions == n
      ensures selectedSetId == old(selectedSetId) && questions == old(questions)
      ensures timePerQuestion == old(timePerQuestion) && creating == old(creating)
      ensures startedQuiz == old(startedQuiz)
    {
      numQuestions := n;
    }

    /** A choice from the time selector. */
    method SetTime(t: int)
      requires Valid() && t in TimeOptions
      modifies this
      ensures Valid() && timePerQuestion == t
      ensures selectedSetId == old(selectedSetId) && questions == old(questions)
      ensures numQuestions == old(numQuestions) && creating == old(creating)
      ensures startedQuiz == old(startedQuiz)
    {
      timePerQuestion := t;
    }

    /** handleStartQuiz (lines 42-65). `choices` are the positions
        `Math.random` picks in the shuffle, `response` the store's answer to
        the create. Returns the request sent, if any. */
    method StartQuiz(choices: seq<nat>, response: Response<Quiz>) returns (sent: Option<CreateQuizParams>)
      requires Valid() && ValidChoices(choices, |questions|)
      modifies this
      ensures Valid()
      ensures sent.Some? <==> Truthy(old(selectedSetId)) && old(SelectedSet()).Some?
      ensures selectedSetId == old(selectedSetId) && questions == old(questions)
      ensures numQuestions == old(numQuestions) && timePerQuestion == old(timePerQuestion)
      ensures sent.None? ==> creating == old(creating) && startedQuiz == old(startedQuiz)
      ensures sent.Some? ==>
        sent.value == QuizParamsAsWritten(old(SelectedSet()).value,
                                          Take(Shuffled(questions, choices), numQuestions),
                                          numQuestions, timePerQuestion)
      ensures sent.Some? ==> sent.value.totalQuestions == numQuestions
      ensures sent.Some? ==> |sent.value.questionIds| == Min(numQuestions, |questions|)
      ensures sent.Some? ==> forall id :: id in sent.value.questionIds ==> id in Ids(questions)
      ensures sent.Some? && Distinct(Ids(questions)) ==> Distinct(sent.value.questionIds)
      ensures sent.Some? ==> var created := Call(response, CreateFailed);
        if created.Success?
        then creating && startedQuiz == Some(created.value.id)
        else !creating && startedQuiz == old(startedQuiz)
    {
      var found := SelectedSet();
      if !Truthy(selectedSetId) || found.None? {
        return None;
      }
      creating := true;
      var qs := questions;
      var source := new Question[|qs|](i requires 0 <= i < |qs| => qs[i]);
      assert source[..] == qs;
      var shuffled := ShuffleArray(source, choices);
      var chosen := Take(shuffled[..], numQuestions);
      var params := QuizParamsAsWritten(found.value, chosen, numQuestions, timePerQuestion);
      ChosenFromSet(questions, choices, numQuestions);
      forall id | id in params.questionIds ensures id in Ids(questions) {
        var k :| 0 <= k < |chosen| && Ids(chosen)[k] == id;
        assert chosen[k] in questions;
        var m :| 0 <= m < |questions| && questions[m] == chosen[k];
        assert Ids(questions)[m] == id;
      }
      sent := Some(params);
      var created := Call(response, CreateFailed);
      if created.Success? {
        startedQuiz := Some(created.value.id);
      } else {
        creating := false;
      }
    }
  }
}
