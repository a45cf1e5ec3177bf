/** The record shapes of the data schema (amplify/data/resource.ts:20-61).
    A field the schema marks `.required()` is a plain field; any other field is
    an `Option`. Record ids and the store-managed `createdAt` are included
    because the core reads them. */
module Records {
  import opened Wrappers

  datatype QuizStatus = InProgress | Completed

  datatype Difficulty = Easy | Medium | Hard

  datatype QuestionSet = QuestionSet(
    id: string,
    name: string,
    description: Option<string>,
    category: string,
    difficulty: Option<Difficulty>,
    isActive: Option<bool>)

  /** A multiple-choice question; `options` is a required array whose
      elements the schema leaves nullable. */
  datatype Question = Question(
    id: string,
    questionSetId: string,
    text: string,
    options: seq<Option<string>>,
    correctIndex: int,
    explanation: Option<string>)

  /** One quiz attempt. `createdAt` is the store's creation timestamp, already
      converted to milliseconds since the epoch. */
  datatype Quiz = Quiz(
    id: string,
    questionSetId: string,
    questionSetName: Option<string>,
    status: Option<QuizStatus>,
    totalQuestions: int,
    timePerQuestion: int,
    currentQuestionIndex: Option<int>,
    score: Option<int>,
    startedAt: Option<string>,
    completedAt: Option<string>,
    questionIds: seq<Option<string>>,
    createdAt: Option<int>)

  /** One submitted answer; `selectedIndex` is absent for a timeout. */
  datatype QuizAnswer = QuizAnswer(
    quizId: string,
    questionId: string,
    questionIndex: int,
    selectedIndex: Option<int>,
    isCorrect: bool,
    timeTaken: Option<int>)

  function QuestionSetId(s: QuestionSet): string {
    s.id
  }

  function QuestionId(q: Question): string {
    q.id
  }

  /** `records.find((x) => x.id === id)`: the first record with that id,
      none when `id` is absent or no record has it. */
  function FindById<T>(records: seq<T>, idOf: T -> string, id: Option<string>): (r: Option<T>)
    ensures r.Some? ==> r.value in records && id == Some(idOf(r.value))
    ensures r.None? <==> forall x :: x in records ==> id != Some(idOf(x))
  {
    if records == [] then None
    else if id == Some(idOf(records[0])) then Some(records[0])
    else FindById(records[1..], idOf, id)
  }

  /** The record found is the first one with the id. */
  lemma {:induction false} FindByIdFirst<T>(records: seq<T>, idOf: T -> string, id: Option<string>)
    requires FindById(records, idOf, id).Some?
    ensures exists k :: 0 <= k < |records| && records[k] == FindById(records, idOf, id).value
                        && forall i :: 0 <= i < k ==> id != Some(idOf(records[i]))
  {
    if id != Some(idOf(records[0])) {
      FindByIdFirst(records[1..], idOf, id);
      var k :| 0 <= k < |records[1..]| && records[1..][k] == FindById(records, idOf, id).value
               && forall i :: 0 <= i < k ==> id != Some(idOf(records[1..][i]));
      assert records[k + 1] == FindById(records, idOf, id).value;
      forall i | 0 <= i < k + 1 ensures id != Some(idOf(records[i])) {
        if i > 0 {
          assert records[i] == records[1..][i - 1];
        }
      }
    } else {
      assert records[0] == FindById(records, idOf, id).value;
    }
  }

  /** The non-null ids of a quiz, in order: `questionIds.filter(id => id !== null)`. */
  function ValidQuestionIds(ids: seq<Option<string>>): (r: seq<string>)
    ensures |r| <= |ids|
    ensures forall x :: x in r <==> Some(x) in ids
  {
    if ids == [] then []
    else (if ids[0].Some? then [ids[0].value] else []) + ValidQuestionIds(ids[1..])
  }

  /** The number of correct answers. */
  function CountCorrect(answers: seq<QuizAnswer>): (n: nat)
    ensures n <= |answers|
  {
    if answers == [] then 0
    else (if answers[0].isCorrect then 1 else 0) + CountCorrect(answers[1..])
  }

  lemma {:induction false} CountCorrectAppend(answers: seq<QuizAnswer>, a: QuizAnswer)
    ensures CountCorrect(answers + [a]) == CountCorrect(answers) + (if a.isCorrect then 1 else 0)
  {
    if answers != [] {
      CountCorrectAppend(answers[1..], a);
      assert (answers + [a])[1..] == answers[1..] + [a];
    }
  }

  /** Counting correct answers distributes over concatenation. */
  lemma {:induction false} CountCorrectConcat(first: seq<QuizAnswer>, second: seq<QuizAnswer>)
    ensures CountCorrect(first + second) == CountCorrect(first) + CountCorrect(second)
  {
    if first != [] {
      CountCorrectConcat(first[1..], second);
      assert (first + second)[1..] == first[1..] + second;
    } else {
      assert first + second == second;
    }
  }
}
