/** The dashboard of src/pages/HomePage.tsx: totals over the completed
    quizzes, the average score, the recent results and the quiz to continue. */
module Home {
  import opened Wrappers
  import opened Records
  import opened Sorting
  import opened Rounding
  import opened QuizList

  /** `reduce((acc, q) => acc + (q.totalQuestions ?? 0), 0)` (lines 10-13). */
  function TotalQuestions(completed: seq<Quiz>): (n: int)
    ensures (forall i :: 0 <= i < |completed| ==> completed[i].totalQuestions >= 0) ==> n >= 0
    ensures |completed| == 1 ==> n == completed[0].totalQuestions
  {
    if completed == [] then 0 else completed[0].totalQuestions + TotalQuestions(completed[1..])
  }

  /** `reduce((acc, q) => acc + (q.score ?? 0), 0)` (lines 14-17). */
  function TotalCorrect(completed: seq<Quiz>): (n: int)
    ensures (forall i :: 0 <= i < |completed| ==> completed[i].score.GetOr(0) >= 0) ==> n >= 0
    ensures |completed| == 1 ==> n == completed[0].score.GetOr(0)
  {
    if completed == [] then 0 else completed[0].score.GetOr(0) + TotalCorrect(completed[1..])
  }

  /** `totalQuestions > 0 ? Math.round((totalCorrect / totalQuestions) * 100) : 0`
      (lines 18-20). */
  function AverageScore(completed: seq<Quiz>): (r: int)
    ensures TotalQuestions(completed) <= 0 ==> r == 0
    ensures TotalQuestions(completed) > 0 ==>
      200 * TotalCorrect(completed) - TotalQuestions(completed) < 2 * r * TotalQuestions(completed)
      <= 200 * TotalCorrect(completed) + TotalQuestions(completed)
  {
    Percent(TotalCorrect(completed), TotalQuestions(completed))
  }

  /** Each quiz's score within its question count. */
  ghost predicate ScoresWithin(completed: seq<Quiz>) {
    forall i :: 0 <= i < |completed| ==> 0 <= completed[i].score.GetOr(0) <= completed[i].totalQuestions
  }

  lemma {:induction false} TotalsBounded(completed: seq<Quiz>)
    requires ScoresWithin(completed)
    ensures 0 <= TotalCorrect(completed) <= TotalQuestions(completed)
  {
    if completed != [] {
      assert ScoresWithin(completed[1..]) by {
        forall i | 0 <= i < |completed[1..]|
          ensures 0 <= completed[1..][i].score.GetOr(0) <= completed[1..][i].totalQuestions
        {
          assert completed[1..][i] == completed[i + 1];
        }
      }
      TotalsBounded(completed[1..]);
      assert 0 <= completed[0].score.GetOr(0) <= completed[0].totalQuestions;
    }
  }

  /** The average is a percentage when every quiz's score is within its count. */
  lemma AverageScoreBounded(completed: seq<Quiz>)
    requires ScoresWithin(completed)
    ensures 0 <= AverageScore(completed) <= 100
  {
    TotalsBounded(completed);
  }

  /** The totals a list of quizzes would give if only its completed quizzes
      counted. */
  function CompletedQuestions(quizzes: seq<Quiz>): int {
    if quizzes == [] then 0
    else (if IsCompleted(quizzes[0]) then quizzes[0].totalQuestions else 0) + CompletedQuestions(quizzes[1..])
  }

  function CompletedCorrect(quizzes: seq<Quiz>): int {
    if quizzes == [] then 0
    else (if IsCompleted(quizzes[0]) then quizzes[0].score.GetOr(0) else 0) + CompletedCorrect(quizzes[1..])
  }

  /** The dashboard's totals count the completed quizzes and nothing else. */
  lemma {:induction false} TotalsOverCompleted(quizzes: seq<Quiz>)
    ensures TotalQuestions(CompletedOf(quizzes)) == CompletedQuestions(quizzes)
    ensures TotalCorrect(CompletedOf(quizzes)) == CompletedCorrect(quizzes)
  {
    if quizzes != [] {
      TotalsOverCompleted(quizzes[1..]);
      if IsCompleted(quizzes[0]) {
        assert CompletedOf(quizzes) == [quizzes[0]] + CompletedOf(quizzes[1..]);
        assert CompletedOf(quizzes)[1..] == CompletedOf(quizzes[1..]);
      } else {
        assert CompletedOf(quizzes) == CompletedOf(quizzes[1..]);
      }
    }
  }

  /** `completedQuizzes.slice(0, 5)` (line 105). */
  function RecentResults(completed: seq<Quiz>): (r: seq<Quiz>)
    ensures |r| == Min(5, |completed|)
    ensures r == completed[..|r|]
  {
    completed[..Min(5, |completed|)]
  }

  /** From a newest-first list, a completed quiz left out of the recent
      results is no newer than any shown. */
  lemma RecentAreNewest(completed: seq<Quiz>, i: int, j: int)
    requires NewestFirst(completed)
    requires 0 <= i < |RecentResults(completed)| <= j < |completed|
    ensures CreatedTime(RecentResults(completed)[i]) >= CreatedTime(completed[j])
  {
  }

  /** The per-quiz percentage `Math.round((score ?? 0) / (totalQuestions ?? 1) * 100)`
      (line 124); `None` where the quotient is not a number or infinite. */
  function QuizPercentage(q: Quiz): (r: Option<int>)
    ensures r.None? <==> q.totalQuestions == 0
    ensures q.totalQuestions > 0 ==> r == Some(Percent(q.score.GetOr(0), q.totalQuestions))
    ensures r.Some? ==> var s, t := q.score.GetOr(0), q.totalQuestions;
      2 * (100 * s) * t - t * t < 2 * r.value * t * t <= 2 * (100 * s) * t + t * t
  {
    var s, t := q.score.GetOr(0), q.totalQuestions;
    if t == 0 then None
    else if t > 0 then
      var r := RoundDiv(100 * s, t);
      ScaleBound(100 * s, t, r, t);
      Some(r)
    else
      var r := RoundDiv(-100 * s, -t);
      ScaleBound(-100 * s, -t, r, -t);
      assert 2 * (-100 * s) * (-t) == 2 * (100 * s) * t && (-t) * (-t) == t * t;
      Some(r)
  }

  /** Multiplying the rounding bound by a positive factor. */
  lemma ScaleBound(a: int, b: int, r: int, c: int)
    requires c > 0 && 2 * a - b < 2 * r * b <= 2 * a + b
    ensures 2 * a * c - b * c < 2 * r * b * c <= 2 * a * c + b * c
  {
    assert (2 * a - b) * c < (2 * r * b) * c <= (2 * a + b) * c;
  }

  /** The "Continue Quiz" link (lines 85-86): the first running quiz, shown
      only when there is one. */
  function ContinueTarget(running: seq<Quiz>): (r: Option<string>)
    ensures r.None? <==> running == []
    ensures r.Some? ==> r.value == running[0].id
  {
    if running == [] then None else Some(running[0].id)
  }

  /** With the list sorted newest first, "Continue" goes to the newest
      running quiz. */
  lemma ContinueNewest(items: seq<Quiz>, q: Quiz)
    requires q in Running(SortByRecency(items))
    ensures ContinueTarget(Running(SortByRecency(items))).Some?
    ensures var running := Running(SortByRecency(items));
      CreatedTime(running[0]) >= CreatedTime(q) && IsRunning(running[0])
  {
    PartitionNewestFirst(items);
    var running := Running(SortByRecency(items));
    var k :| 0 <= k < |running| && running[k] == q;
    assert running[0] in running;
    FilterMembers(SortByRecency(items), IsRunning, running[0]);
  }
}
