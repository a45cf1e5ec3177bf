/** The data-access functions of src/hooks/useQuiz.ts. Every call to the data
    store is replaced by the response the store gives: a `Response` for
    create, update and get calls, a sequence of `ListPage`s for a paged list. */
module QuizStore {
  import opened Wrappers
  import opened Records
  import opened Sorting

  /** What a single store call resolves to: `{ data, errors }`. */
  datatype Response<T> = Response(data: Option<T>, errors: Option<seq<string>>)

  /** One page of a list call: `{ data, errors, nextToken }`. */
  datatype ListPage<T> = ListPage(data: seq<T>, errors: Option<seq<string>>, nextToken: Option<string>)

  const CreateFailed := "Failed to create quiz"
  const SubmitFailed := "Failed to submit answer"
  const ProgressFailed := "Failed to update quiz progress"
  const CompleteFailed := "Failed to complete quiz"

  /** The common shape of createQuiz, submitAnswer, updateQuizProgress and
      completeQuiz: `if (errors || !data) throw new Error(errors?.[0]?.message ?? fallback)`.
      An `errors` array counts as a failure even when it is empty. */
  function Call<T>(resp: Response<T>, fallback: string): (r: Result<T, Thrown>)
    ensures r.Success? <==> resp.errors.None? && resp.data.Some?
    ensures r.Success? ==> r.value == resp.data.value
    ensures r.Failure? ==> r.error.Error?
    ensures r.Failure? && resp.errors.Some? && resp.errors.value != [] ==> r.error.message == resp.errors.value[0]
    ensures r.Failure? && (resp.errors.None? || resp.errors.value == []) ==> r.error.message == fallback
  {
    if resp.errors.Some? || resp.data.None? then
      Failure(Error(if resp.errors.Some? && resp.errors.value != [] then resp.errors.value[0] else fallback))
    else Success(resp.data.value)
  }

  // ---------------------------------------------------------------- writes

  datatype CreateQuizParams = CreateQuizParams(
    questionSetId: string,
    questionSetName: string,
    questionIds: seq<string>,
    totalQuestions: int,
    timePerQuestion: int)

  /** A partial update of a quiz record: the fields given are overwritten. */
  datatype QuizUpdate = QuizUpdate(
    id: string,
    status: Option<QuizStatus>,
    score: Option<int>,
    completedAt: Option<string>,
    currentQuestionIndex: Option<int>)

  /** The record that createQuiz writes; the store adds `id` and `createdAt`. */
  function NewQuiz(p: CreateQuizParams, startedAt: string, id: string, createdAt: int): (q: Quiz)
    ensures q.status == Some(InProgress) && q.currentQuestionIndex == Some(0)
    ensures q.score.None? && q.completedAt.None? && q.startedAt == Some(startedAt)
    ensures ValidQuestionIds(q.questionIds) == p.questionIds && |q.questionIds| == |p.questionIds|
    ensures q.totalQuestions == p.totalQuestions && q.timePerQuestion == p.timePerQuestion
  {
    var q := Quiz(id, p.questionSetId, Some(p.questionSetName), Some(InProgress),
                  p.totalQuestions, p.timePerQuestion, Some(0), None,
                  Some(startedAt), None, LiftIds(p.questionIds), Some(createdAt));
    LiftIdsValid(p.questionIds);
    q
  }

  /** The ids as stored in the nullable-element `questionIds` array. */
  function LiftIds(ids: seq<string>): (r: seq<Option<string>>)
    ensures |r| == |ids| && forall i :: 0 <= i < |ids| ==> r[i] == Some(ids[i])
  {
    seq(|ids|, i requires 0 <= i < |ids| => Some(ids[i]))
  }

  lemma {:induction false} LiftIdsValid(ids: seq<string>)
    ensures ValidQuestionIds(LiftIds(ids)) == ids
  {
    if ids != [] {
      LiftIdsValid(ids[1..]);
      assert LiftIds(ids)[1..] == LiftIds(ids[1..]);
    }
  }

  /** The update updateQuizProgress sends (useQuiz.ts:65-68). */
  function ProgressUpdate(quizId: string, index: int): QuizUpdate {
    QuizUpdate(quizId, None, None, None, Some(index))
  }

  /** The update completeQuiz sends (useQuiz.ts:78-83). */
  function CompletionUpdate(quizId: string, score: int, completedAt: string): QuizUpdate {
    QuizUpdate(quizId, Some(Completed), Some(score), Some(completedAt), None)
  }

  /** How the store applies a partial update to the record it holds. */
  function ApplyUpdate(q: Quiz, u: QuizUpdate): Quiz {
    q.(status := if u.status.Some? then u.status else q.status,
       score := if u.score.Some? then u.score else q.score,
       completedAt := if u.completedAt.Some? then u.completedAt else q.completedAt,
       currentQuestionIndex := if u.currentQuestionIndex.Some? then u.currentQuestionIndex
                               else q.currentQuestionIndex)
  }

  /** completeQuiz marks the quiz completed with the given score and touches
      nothing that defines the attempt. */
  lemma CompletionEffect(q: Quiz, score: int, completedAt: string)
    ensures var q' := ApplyUpdate(q, CompletionUpdate(q.id, score, completedAt));
      && q'.status == Some(Completed) && q'.score == Some(score)
      && q'.completedAt == Some(completedAt)
      && q'.currentQuestionIndex == q.currentQuestionIndex
      && q'.questionIds == q.questionIds && q'.totalQuestions == q.totalQuestions
      && q'.timePerQuestion == q.timePerQuestion && q'.startedAt == q.startedAt
  {
  }

  /** updateQuizProgress moves the question pointer and nothing else. */
  lemma ProgressEffect(q: Quiz, index: int)
    ensures ApplyUpdate(q, ProgressUpdate(q.id, index)) == q.(currentQuestionIndex := Some(index))
  {
  }

  // --------------------------------------------------------- getQuizAnswers

  /** JavaScript truthiness of an optional string. */
  predicate Truthy(t: Option<string>) {
    t.Some? && t.value != ""
  }

  /** The do-while loop stops after this page: it threw, or there is no next token. */
  predicate EndsListing<T>(p: ListPage<T>) {
    p.errors.Some? || !Truthy(p.nextToken)
  }

  /** The index of the page on which the listing stops, or `|pages|` if none does. */
  function FirstEnd<T>(pages: seq<ListPage<T>>): (k: nat)
    ensures k <= |pages|
    ensures k < |pages| ==> EndsListing(pages[k])
    ensures forall i :: 0 <= i < k ==> !EndsListing(pages[i])
  {
    if pages == [] then 0
    else if EndsListing(pages[0]) then 0
    else 1 + FirstEnd(pages[1..])
  }

  /** The data of the first `n` pages, concatenated. */
  function Gathered<T>(pages: seq<ListPage<T>>, n: nat): seq<T>
    requires n <= |pages|
  {
    if n == 0 then [] else Gathered(pages, n - 1) + pages[n - 1].data
  }

  /** The sort key of getQuizAnswers: `a.questionIndex`. */
  function AnswerOrder(a: QuizAnswer): int {
    a.questionIndex
  }

  /** `throw new Error(errors[0].message)`; with no first error the property
      access itself throws. */
  function ListError(errors: seq<string>): Thrown {
    if errors == [] then TypeError else Error(errors[0])
  }

  /** What getQuizAnswers resolves to for the pages the store returns. */
  function ListAnswers(pages: seq<ListPage<QuizAnswer>>): Result<seq<QuizAnswer>, Thrown>
    requires FirstEnd(pages) < |pages|
  {
    var k := FirstEnd(pages);
    if pages[k].errors.Some? then Failure(ListError(pages[k].errors.value))
    else Success(SortBy(Gathered(pages, k + 1), AnswerOrder))
  }

  /** getQuizAnswers (useQuiz.ts:92-112): keep listing while the page carries a
      next token, throw on the first page with errors, then sort the collected
      answers by question index. The store is required to end the listing. */
  method GetQuizAnswers(pages: seq<ListPage<QuizAnswer>>) returns (r: Result<seq<QuizAnswer>, Thrown>)
    requires FirstEnd(pages) < |pages|
    ensures r == ListAnswers(pages)
    ensures r.Failure? <==> exists i :: 0 <= i <= FirstEnd(pages) && pages[i].errors.Some?
    ensures r.Success? ==> SortedBy(r.value, AnswerOrder)
    ensures r.Success? ==> multiset(r.value) == multiset(Gathered(pages, FirstEnd(pages) + 1))
  {
    var allAnswers: seq<QuizAnswer> := [];
    var k := 0;
    while true
      invariant k <= FirstEnd(pages)
      invariant allAnswers == Gathered(pages, k)
      decreases FirstEnd(pages) - k
    {
      var page := pages[k];
      if page.errors.Some? {
        return Failure(ListError(page.errors.value));
      }
      allAnswers := allAnswers + page.data;
      if !Truthy(page.nextToken) {
        break;
      }
      k := k + 1;
    }
    SortBySorted(allAnswers, AnswerOrder);
    SortByPermutation(allAnswers, AnswerOrder);
    r := Success(SortBy(allAnswers, AnswerOrder));
  }

  // ------------------------------------------------------ getQuestionsByIds

  /** The questions kept from the per-id responses: a response with errors is
      skipped, so is one without data. */
  function Fetched(responses: seq<Response<Question>>): (r: seq<Question>)
    ensures |r| <= |responses|
  {
    if responses == [] then []
    else
      var resp := responses[0];
      (if resp.errors.None? && resp.data.Some? then [resp.data.value] else [])
      + Fetched(responses[1..])
  }

  /** The id of each question. */
  function Ids(qs: seq<Question>): (r: seq<string>)
    ensures |r| == |qs| && forall i :: 0 <= i < |qs| ==> r[i] == qs[i].id
  {
    seq(|qs|, i requires 0 <= i < |qs| => qs[i].id)
  }

  /** The store answers a get by id with the record of that id. */
  ghost predicate AnswersIds(ids: seq<string>, responses: seq<Response<Question>>) {
    |responses| == |ids|
    && forall i :: 0 <= i < |ids| && responses[i].data.Some? ==> responses[i].data.value.id == ids[i]
  }

  /** Every response succeeded with a record. */
  ghost predicate AllFetched(responses: seq<Response<Question>>) {
    forall i :: 0 <= i < |responses| ==> responses[i].errors.None? && responses[i].data.Some?
  }

  /** getQuestionsByIds (useQuiz.ts:114-129): one get per id, in order,
      skipping ids whose get errs or returns nothing. */
  method GetQuestionsByIds(questionIds: seq<string>, responses: seq<Response<Question>>)
    returns (questions: seq<Question>)
    requires |responses| == |questionIds|
    ensures questions == Fetched(responses)
    ensures |questions| <= |questionIds|
  {
    questions := [];
    for i := 0 to |questionIds|
      invariant questions + Fetched(responses[i..]) == Fetched(responses)
    {
      assert responses[i..] == [responses[i]] + responses[i + 1..];
      var resp := responses[i];
      if resp.errors.Some? {
        continue;
      }
      if resp.data.Some? {
        questions := questions + [resp.data.value];
      }
    }
    assert responses[|questionIds|..] == [];
  }

  /** The fetched questions follow the requested ids: their ids are a
      subsequence of the ids asked for. */
  lemma {:induction false} FetchedInIdOrder(ids: seq<string>, responses: seq<Response<Question>>)
    requires AnswersIds(ids, responses)
    ensures IsSubsequence(Ids(Fetched(responses)), ids)
  {
    if ids != [] {
      FetchedInIdOrder(ids[1..], responses[1..]);
      var resp := responses[0];
      if resp.errors.None? && resp.data.Some? {
        assert Ids(Fetched(responses))[1..] == Ids(Fetched(responses[1..]));
      } else {
        assert Fetched(responses) == Fetched(responses[1..]);
      }
    }
  }

  /** When every get succeeds, exactly the requested questions come back, in order. */
  lemma {:induction false} FetchedAll(ids: seq<string>, responses: seq<Response<Question>>)
    requires AnswersIds(ids, responses) && AllFetched(responses)
    ensures Ids(Fetched(responses)) == ids
  {
    if ids != [] {
      FetchedAll(ids[1..], responses[1..]);
      assert Ids(Fetched(responses)) == [ids[0]] + Ids(Fetched(responses[1..]));
    }
  }

  // ----------------------------------------------------------- shuffleArray

  /** The draws of `Math.floor(Math.random() * (i + 1))`: entry `i` is the
      partner picked for position `i`, so `choices[i] <= i`. */
  ghost predicate ValidChoices(choices: seq<nat>, n: nat) {
    |choices| == n && forall i :: 0 <= i < n ==> choices[i] <= i
  }

  function SwapAt<T>(s: seq<T>, i: nat, j: nat): (r: seq<T>)
    requires i < |s| && j < |s|
    ensures |r| == |s|
  {
    s[i := s[j]][j := s[i]]
  }

  /** Fisher-Yates from position `i` down to 1. */
  function ShuffleFrom<T>(s: seq<T>, choices: seq<nat>, i: nat): seq<T>
    requires i < |s| && ValidChoices(choices, |s|)
    decreases i
  {
    if i == 0 then s else ShuffleFrom(SwapAt(s, i, choices[i]), choices, i - 1)
  }

  /** What shuffleArray returns for the given draws. */
  function Shuffled<T>(s: seq<T>, choices: seq<nat>): seq<T>
    requires ValidChoices(choices, |s|)
  {
    if s == [] then [] else ShuffleFrom(s, choices, |s| - 1)
  }

  lemma SwapPermutation<T>(s: seq<T>, i: nat, j: nat)
    requires i < |s| && j < |s|
    ensures multiset(SwapAt(s, i, j)) == multiset(s)
  {
    var t := s[i := s[j]];
    assert multiset(t) == multiset(s) - multiset{s[i]} + multiset{s[j]};
    assert t[j] == (if i == j then s[j] else s[j]);
  }

  lemma {:induction false} ShuffleFromPermutation<T>(s: seq<T>, choices: seq<nat>, i: nat)
    requires i < |s| && ValidChoices(choices, |s|)
    ensures multiset(ShuffleFrom(s, choices, i)) == multiset(s)
    ensures |ShuffleFrom(s, choices, i)| == |s|
    decreases i
  {
    if i > 0 {
      SwapPermutation(s, i, choices[i]);
      ShuffleFromPermutation(SwapAt(s, i, choices[i]), choices, i - 1);
    }
  }

  /** shuffleArray returns a rearrangement of its input. */
  lemma ShuffledPermutation<T>(s: seq<T>, choices: seq<nat>)
    requires ValidChoices(choices, |s|)
    ensures multiset(Shuffled(s, choices)) == multiset(s) && |Shuffled(s, choices)| == |s|
  {
    if s != [] {
      ShuffleFromPermutation(s, choices, |s| - 1);
    }
  }

  /** shuffleArray (useQuiz.ts:131-138): Fisher-Yates on a copy; the argument
      is left as it was. */
  method ShuffleArray<T>(items: array<T>, choices: seq<nat>) returns (shuffled: array<T>)
    requires ValidChoices(choices, items.Length)
    ensures fresh(shuffled)
    ensures shuffled[..] == Shuffled(items[..], choices)
    ensures multiset(shuffled[..]) == multiset(items[..])
    ensures items.Length <= 1 ==> shuffled[..] == items[..]
  {
    shuffled := new T[items.Length](k requires 0 <= k < items.Length reads items => items[k]);
    assert shuffled[..] == items[..];
    var i := items.Length - 1;
    while i > 0
      invariant items.Length == 0 ==> i == -1
      invariant items.Length > 0 ==> 0 <= i < items.Length
      invariant items.Length > 0 ==> ShuffleFrom(shuffled[..], choices, i) == Shuffled(items[..], choices)
      invariant multiset(shuffled[..]) == multiset(items[..])
    {
      var j := choices[i];
      SwapPermutation(shuffled[..], i, j);
      assert SwapAt(shuffled[..], i, j) == shuffled[..][i := shuffled[j]][j := shuffled[i]];
      shuffled[i], shuffled[j] := shuffled[j], shuffled[i];
      i := i - 1;
    }
  }
}
