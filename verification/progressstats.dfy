/**
 * The progress screen's figures: courses enrolled, courses completed, the
 * overall percentage and the "In Progress Courses" list, computed from the
 * student's courses with their progress.
 */
module ProgressStats {
  import opened Seqs
  import opened CourseModel
  import QuizTaking

  /** A course with the student's progress in it and the instructor's display name. */
  datatype CourseWithExtras = CourseWithExtras(course: Course, progress: int, instructorName: string)

  predicate IsCompleted(e: CourseWithExtras)
  {
    e.progress >= 100
  }

  /** "Courses Completed": the number of positions whose entry is at 100 percent or above. */
  function CompletedCount(entries: seq<CourseWithExtras>): (r: nat)
    ensures r <= |entries|
    ensures r == 0 <==> forall k :: 0 <= k < |entries| ==> entries[k].progress < 100
    ensures r == |set k | 0 <= k < |entries| && entries[k].progress >= 100|
  {
    var done := Filter(entries, IsCompleted);
    assert forall k :: 0 <= k < |entries| && IsCompleted(entries[k]) ==> entries[k] in done;
    FilterCountsPositions(entries, IsCompleted, |entries|);
    assert entries[..|entries|] == entries;
    assert Positions(entries, IsCompleted, |entries|) == set k | 0 <= k < |entries| && entries[k].progress >= 100;
    |done|
  }

  predicate EnrolledIn(enrolled: seq<Course>, courseId: string)
  {
    exists k :: 0 <= k < |enrolled| && enrolled[k].id == courseId
  }

  predicate IsInProgress(enrolled: seq<Course>, e: CourseWithExtras)
  {
    e.progress < 100 && EnrolledIn(enrolled, e.course.id)
  }

  /** "In Progress Courses": entries below 100 percent whose course is among the enrolled ones, in order. */
  function InProgress(entries: seq<CourseWithExtras>, enrolled: seq<Course>): (r: seq<CourseWithExtras>)
    ensures forall x :: x in r <==> x in entries && x.progress < 100 && EnrolledIn(enrolled, x.course.id)
    ensures IsSubsequence(r, entries)
  {
    Filter(entries, (e: CourseWithExtras) => IsInProgress(enrolled, e))
  }

  /**
   * No entry is both completed and in progress, so the two figures never
   * exceed the entries; with every course enrolled they add up to them.
   */
  lemma {:induction false} CompletedAndInProgressDisjoint(entries: seq<CourseWithExtras>, enrolled: seq<Course>)
    ensures forall x :: x in InProgress(entries, enrolled) ==> !IsCompleted(x)
    ensures CompletedCount(entries) + |InProgress(entries, enrolled)| <= |entries|
    ensures (forall k :: 0 <= k < |entries| ==> EnrolledIn(enrolled, entries[k].course.id)) ==>
              CompletedCount(entries) + |InProgress(entries, enrolled)| == |entries|
    decreases |entries|
  {
    if |entries| > 0 {
      CompletedAndInProgressDisjoint(entries[1..], enrolled);
      assert CompletedCount(entries) == (if IsCompleted(entries[0]) then 1 else 0) + CompletedCount(entries[1..]);
      assert |InProgress(entries, enrolled)| ==
             (if IsInProgress(enrolled, entries[0]) then 1 else 0) + |InProgress(entries[1..], enrolled)|;
      if forall k :: 0 <= k < |entries| ==> EnrolledIn(enrolled, entries[k].course.id) {
        assert forall k :: 0 <= k < |entries[1..]| ==> EnrolledIn(enrolled, entries[1..][k].course.id) by {
          forall k | 0 <= k < |entries[1..]| ensures EnrolledIn(enrolled, entries[1..][k].course.id) {
            assert entries[1..][k] == entries[k + 1];
          }
        }
      }
    }
  }

  function Progress(e: CourseWithExtras): int
  {
    e.progress
  }

  /**
   * The "% Complete" figure: the mean progress truncated towards zero, 0
   * with no entries.
   */
  function OverallPercent(entries: seq<CourseWithExtras>): (r: int)
    ensures |entries| == 0 ==> r == 0
    ensures |entries| > 0 && SumOf(entries, Progress) >= 0 ==>
              r * |entries| <= SumOf(entries, Progress) < (r + 1) * |entries|
  {
    if |entries| == 0 then 0 else QuizTaking.TruncDiv(SumOf(entries, Progress), |entries|)
  }

  /** A mean of values within 0..100 lies within 0..100. */
  lemma MeanBounds(sum: int, n: int)
    requires 0 < n && 0 <= sum <= 100 * n
    ensures 0 <= sum / n <= 100
    ensures sum == 100 * n ==> sum / n == 100
  {
  }

  /** Progress values within 0..100 give an overall figure within 0..100, and 100 when all are at 100. */
  lemma OverallPercentBounds(entries: seq<CourseWithExtras>)
    requires forall k :: 0 <= k < |entries| ==> 0 <= entries[k].progress <= 100
    ensures 0 <= OverallPercent(entries) <= 100
    ensures (forall k :: 0 <= k < |entries| ==> entries[k].progress == 100) && |entries| > 0 ==>
              OverallPercent(entries) == 100
  {
    if |entries| > 0 {
      SumOfBounds(entries, Progress, 0, 100);
      MeanBounds(SumOf(entries, Progress), |entries|);
      if forall k :: 0 <= k < |entries| ==> entries[k].progress == 100 {
        SumOfBounds(entries, Progress, 100, 100);
      }
    }
  }

  /** The statistics cards: enrolled and completed counts. */
  datatype StatCards = StatCards(coursesEnrolled: nat, coursesCompleted: nat)

  /** "Courses Enrolled" counts the enrolled list, not the entries; "Courses Completed" counts entries. */
  function Cards(entries: seq<CourseWithExtras>, enrolled: seq<Course>): (r: StatCards)
    ensures r.coursesEnrolled == |enrolled|
    ensures r.coursesCompleted == CompletedCount(entries)
  {
    StatCards(|enrolled|, CompletedCount(entries))
  }
}
