/** The quiz list of src/hooks/useQuizzes.ts: every delivery of the quiz
    subscription is sorted newest first, then split by status. */
module QuizList {
  import opened Wrappers
  import opened Records
  import opened Sorting

  /** `createdAt ? new Date(createdAt).getTime() : 0`, with the timestamp
      already in milliseconds. */
  function CreatedTime(q: Quiz): int {
    q.createdAt.GetOr(0)
  }

  /** The comparator `dateB - dateA` puts a larger key first; ascending in
      this key is descending in creation time. */
  function RecencyKey(q: Quiz): int {
    -CreatedTime(q)
  }

  /** `[...items].sort(...)` (lines 16-20). The standard requires a stable
      sort, so every conforming engine returns this one. */
  function SortByRecency(items: seq<Quiz>): (r: seq<Quiz>)
    ensures multiset(r) == multiset(items)
  {
    SortByPermutation(items, RecencyKey);
    SortBy(items, RecencyKey)
  }

  ghost predicate NewestFirst(s: seq<Quiz>) {
    forall i, j :: 0 <= i < j < |s| ==> CreatedTime(s[i]) >= CreatedTime(s[j])
  }

  /** The sorted list is a rearrangement of the delivered items, newest first,
      and quizzes created at the same time keep their delivered order. */
  lemma SortByRecencyCorrect(items: seq<Quiz>, t: int)
    ensures multiset(SortByRecency(items)) == multiset(items)
    ensures |SortByRecency(items)| == |items|
    ensures NewestFirst(SortByRecency(items))
    ensures WithKey(SortByRecency(items), RecencyKey, -t) == WithKey(items, RecencyKey, -t)
  {
    SortByPermutation(items, RecencyKey);
    SortBySorted(items, RecencyKey);
    SortByStable(items, RecencyKey, -t);
  }

  predicate IsRunning(q: Quiz) {
    q.status == Some(InProgress)
  }

  predicate IsCompleted(q: Quiz) {
    q.status == Some(Completed)
  }

  /** `quizzes.filter((q) => q.status === "IN_PROGRESS")` (line 33). */
  function Running(quizzes: seq<Quiz>): (r: seq<Quiz>)
    ensures forall i :: 0 <= i < |r| ==> r[i].status == Some(InProgress)
    ensures IsSubsequence(r, quizzes)
  {
    FilterSubsequence(quizzes, IsRunning);
    Filter(quizzes, IsRunning)
  }

  /** `quizzes.filter((q) => q.status === "COMPLETED")` (line 34). */
  function CompletedOf(quizzes: seq<Quiz>): (r: seq<Quiz>)
    ensures forall i :: 0 <= i < |r| ==> r[i].status == Some(Completed)
    ensures IsSubsequence(r, quizzes)
  {
    FilterSubsequence(quizzes, IsCompleted);
    Filter(quizzes, IsCompleted)
  }

  /** The two lists hold exactly the running and the completed quizzes, in
      list order, none in both, and together no more than the whole list. */
  lemma PartitionCorrect(quizzes: seq<Quiz>)
    ensures forall q :: q in Running(quizzes) <==> q in quizzes && q.status == Some(InProgress)
    ensures forall q :: q in CompletedOf(quizzes) <==> q in quizzes && q.status == Some(Completed)
    ensures forall q :: !(q in Running(quizzes) && q in CompletedOf(quizzes))
    ensures IsSubsequence(Running(quizzes), quizzes) && IsSubsequence(CompletedOf(quizzes), quizzes)
    ensures |Running(quizzes)| + |CompletedOf(quizzes)| <= |quizzes|
  {
    forall q ensures q in Running(quizzes) <==> q in quizzes && IsRunning(q) {
      FilterMembers(quizzes, IsRunning, q);
    }
    forall q ensures q in CompletedOf(quizzes) <==> q in quizzes && IsCompleted(q) {
      FilterMembers(quizzes, IsCompleted, q);
    }
    FilterSubsequence(quizzes, IsRunning);
    FilterSubsequence(quizzes, IsCompleted);
    FilterExclusive(quizzes, IsRunning, IsCompleted);
  }

  /** Both lists of a sorted delivery are newest first. */
  lemma PartitionNewestFirst(items: seq<Quiz>)
    ensures NewestFirst(Running(SortByRecency(items)))
    ensures NewestFirst(CompletedOf(SortByRecency(items)))
  {
    SortBySorted(items, RecencyKey);
    FilterSorted(SortByRecency(items), IsRunning, RecencyKey);
    FilterSorted(SortByRecency(items), IsCompleted, RecencyKey);
  }
}
