/**
 * Enrollment progress in the course view model: completing a lesson,
 * the integer percentage, section completion with its XP award and
 * certificate trigger, the failed-attempt reset after a quiz, and the
 * quiz eligibility check.
 *
 * Firestore reads become arguments: the enrollment found for the
 * student and course (`None` when the query is empty), the course
 * document (`None` when missing) and the stored quiz attempts.
 */
module Progress {
  import opened Wrappers
  import opened Seqs
  import opened CourseModel

  /**
   * `calculateProgress`: the completed share in whole percent, rounded
   * down; 0 for a course without lessons.  Both operands are list sizes,
   * so Kotlin's truncating division agrees with Dafny's.
   */
  function CalculateProgress(completed: nat, total: nat): (r: nat)
    ensures total == 0 ==> r == 0
    ensures total > 0 ==> r * total <= completed * 100 < (r + 1) * total
  {
    if total > 0 then completed * 100 / total else 0
  }

  /** Multiplying by a positive number keeps a strict order. */
  lemma MulLess(a: int, b: int, t: int)
    requires a < b && t > 0
    ensures a * t < b * t
  {
    assert b * t - a * t == (b - a) * t;
  }

  /** Hence a product order with a positive factor gives back the order of the other factors. */
  lemma MulCancel(a: int, b: int, t: int)
    requires t > 0 && a * t < b * t
    ensures a < b
  {
    if b <= a {
      if b < a { MulLess(b, a, t); }
    }
  }

  /** Progress stays within 0..100 while the completed count does not exceed the total, and hits 100 exactly at the total. */
  lemma ProgressBounds(completed: nat, total: nat)
    requires completed <= total
    ensures CalculateProgress(completed, total) <= 100
    ensures CalculateProgress(completed, total) == 100 <==> total > 0 && completed == total
  {
    var r := CalculateProgress(completed, total);
    if total > 0 {
      assert completed * 100 <= total * 100;
      assert r * total < 101 * total;
      MulCancel(r, 101, total);
      if completed == total {
        assert 100 * total < (r + 1) * total;
        MulCancel(100, r + 1, total);
      }
      if completed < total {
        MulLess(completed, total, 100);
        assert r * total < 100 * total;
        MulCancel(r, 100, total);
      }
    }
  }

  /** More completed lessons never lower the percentage. */
  lemma ProgressMonotone(a: nat, b: nat, total: nat)
    requires a <= b
    ensures CalculateProgress(a, total) <= CalculateProgress(b, total)
  {
    if total > 0 {
      var ra, rb := CalculateProgress(a, total), CalculateProgress(b, total);
      assert a * 100 <= b * 100;
      assert ra * total < (rb + 1) * total;
      MulCancel(ra, rb + 1, total);
    }
  }

  /** Marking a lesson complete: its id is appended unless it is already there. */
  function CompleteLesson(completed: seq<string>, lessonId: string): (r: seq<string>)
    ensures forall x :: x in r <==> x in completed || x == lessonId
    ensures lessonId in completed ==> r == completed
    ensures lessonId !in completed ==> |r| == |completed| + 1 && r[..|completed|] == completed
    ensures NoDup(completed) ==> NoDup(r)
  {
    if lessonId in completed then completed
    else
      var r := completed + [lessonId];
      assert r[..|completed|] == completed;
      assert NoDup(completed) ==> NoDup(r) by {
        if NoDup(completed) { NoDupCons(lessonId, completed); }
      }
      r
  }

  /** Completing the same lesson twice is completing it once. */
  lemma CompleteLessonIdempotent(completed: seq<string>, lessonId: string)
    ensures CompleteLesson(CompleteLesson(completed, lessonId), lessonId) == CompleteLesson(completed, lessonId)
  {
  }

  /** A section is completed when every one of its lesson ids is in `completed`. */
  predicate SectionComplete(s: CourseSection, completed: seq<string>)
  {
    forall k :: 0 <= k < |s.lessons| ==> s.lessons[k].id in completed
  }

  /**
   * The state a well-kept enrollment is in: no repeated id, only ids of
   * the course's lessons, and the stored percentage matching the list.
   */
  predicate Consistent(e: CourseEnrollment, c: Course)
  {
    NoDup(e.completedLessons) &&
    (forall x :: x in e.completedLessons ==> x in AllLessonIds(c.sections)) &&
    e.progress == CalculateProgress(|e.completedLessons|, TotalLessons(c))
  }

  /** A consistent enrollment's percentage is within 0..100, and is 100 exactly when every lesson slot is filled. */
  lemma ConsistentBounds(e: CourseEnrollment, c: Course)
    requires Consistent(e, c)
    ensures 0 <= e.progress <= 100
    ensures e.progress == 100 <==> TotalLessons(c) > 0 && |e.completedLessons| == TotalLessons(c)
  {
    NoDupSubsetLength(e.completedLessons, AllLessonIds(c.sections));
    AllLessonIdsLength(c.sections);
    ProgressBounds(|e.completedLessons|, TotalLessons(c));
  }

  /** A fresh enrollment is consistent with every course. */
  lemma NewEnrollmentConsistent(courseId: string, studentId: string, date: int, c: Course)
    ensures Consistent(NewEnrollment(courseId, studentId, date), c)
  {
  }

  /** What `updateCourseProgress` writes and triggers. */
  datatype LessonCompletion =
    | NoEnrollment                      // early return: nothing written, nothing tracked
    | NothingWritten                    // course or section missing: only the activity tracker runs
    | Written(enrollment: CourseEnrollment, sectionCompleted: bool, certificate: bool)

  /** XP granted for the completion: 2 when the lesson's section became complete. */
  function XpAwarded(o: LessonCompletion): (r: int)
    ensures r == 0 || r == 2
    ensures r == 2 <==> o.Written? && o.sectionCompleted
  {
    if o.Written? && o.sectionCompleted then 2 else 0
  }

  /** The activity tracker is told about the lesson whenever an enrollment was found. */
  predicate Tracked(o: LessonCompletion)
  {
    !o.NoEnrollment?
  }

  lemma TotalLessonsPositive(c: Course, i: int, lessonId: string)
    requires 0 <= i < |c.sections| && HasLesson(c.sections[i], lessonId)
    ensures TotalLessons(c) >= 1
  {
    SumOfAtLeastTerm(c.sections, (s: CourseSection) => |s.lessons|, i);
  }

  /**
   * `updateCourseProgress`: the lesson's section is the first one
   * containing it; the lesson id is recorded once; the percentage is
   * recomputed over all lessons of the course; the section counts as
   * completed when all its lesson ids are recorded; a certificate is due
   * when the percentage is exactly 100.
   */
  function UpdateCourseProgress(enrollment: Option<CourseEnrollment>, course: Option<Course>, lessonId: string): (r: LessonCompletion)
    ensures enrollment.None? <==> r.NoEnrollment?
    ensures r.Written? <==> enrollment.Some? && course.Some? &&
                            exists i :: 0 <= i < |course.value.sections| && HasLesson(course.value.sections[i], lessonId)
    ensures r.Written? ==>
              var e, c, w := enrollment.value, course.value, r.enrollment;
              w == e.(completedLessons := w.completedLessons, progress := w.progress) &&
              w.completedLessons == CompleteLesson(e.completedLessons, lessonId) &&
              lessonId in w.completedLessons &&
              (forall x :: x in w.completedLessons <==> x in e.completedLessons || x == lessonId) &&
              w.progress == CalculateProgress(|w.completedLessons|, TotalLessons(c)) &&
              (r.sectionCompleted <==> SectionComplete(SectionOfLesson(c.sections, lessonId).value, w.completedLessons)) &&
              (r.certificate <==> w.progress == 100)
  {
    match enrollment
    case None => NoEnrollment
    case Some(e) =>
      match course
      case None => NothingWritten
      case Some(c) =>
        match SectionOfLesson(c.sections, lessonId)
        case None => NothingWritten
        case Some(s) =>
          var updated := CompleteLesson(e.completedLessons, lessonId);
          var total := TotalLessons(c);
          TotalLessonsPositive(c, IndexWhere(c.sections, (t: CourseSection) => HasLesson(t, lessonId)), lessonId);
          var progress := |updated| * 100 / total;
          var sectionLessons := LessonIds(s);
          var done := forall k :: 0 <= k < |sectionLessons| ==> sectionLessons[k] in updated;
          Written(e.(completedLessons := updated, progress := progress), done, progress == 100)
  }

  /**
   * Completing a lesson of the course keeps an enrollment consistent, so
   * the stored percentage never leaves 0..100 and reaches 100 only when
   * every lesson slot is filled.
   */
  lemma UpdateCourseProgressKeepsConsistent(e: CourseEnrollment, c: Course, lessonId: string)
    requires Consistent(e, c)
    ensures var r := UpdateCourseProgress(Some(e), Some(c), lessonId);
            r.Written? ==> Consistent(r.enrollment, c) && 0 <= r.enrollment.progress <= 100
  {
    var r := UpdateCourseProgress(Some(e), Some(c), lessonId);
    if r.Written? {
      AllLessonIdsMembership(c.sections, lessonId);
      assert Consistent(r.enrollment, c);
      ConsistentBounds(r.enrollment, c);
    }
  }

  // ---------------------------------------------------------------------
  // Quiz attempts
  // ---------------------------------------------------------------------

  datatype QuizAttempt = QuizAttempt(
    id: string,
    studentId: string,
    courseId: string,
    sectionId: string,
    quizId: string,
    score: int,
    hasPassed: bool,
    timestamp: int)

  /** The stored attempts that are failed tries of this student at this quiz. */
  function FailedAttempts(attempts: seq<QuizAttempt>, studentId: string, courseId: string,
                          sectionId: string, quizId: string): nat
  {
    Count(attempts, (a: QuizAttempt) => a.studentId == studentId && a.courseId == courseId &&
                                        a.sectionId == sectionId && a.quizId == quizId && !a.hasPassed)
  }

  /** Storing a new attempt adds one to the failed count exactly when it is a failed try at the same quiz. */
  lemma FailedAttemptsAppend(attempts: seq<QuizAttempt>, a: QuizAttempt)
    ensures FailedAttempts(attempts + [a], a.studentId, a.courseId, a.sectionId, a.quizId)
         == FailedAttempts(attempts, a.studentId, a.courseId, a.sectionId, a.quizId) + (if a.hasPassed then 0 else 1)
  {
    FilterConcat(attempts, [a], (x: QuizAttempt) => x.studentId == a.studentId && x.courseId == a.courseId &&
                                                    x.sectionId == a.sectionId && x.quizId == a.quizId && !x.hasPassed);
  }

  /** The number of tries the quiz allows; 3 when the course, section or quiz cannot be found. */
  function AttemptsAllowed(course: Option<Course>, sectionId: string, quizId: string): (r: int)
    ensures course.None? ==> r == 3
    ensures course.Some? && FindSection(course.value.sections, sectionId).None? ==> r == 3
    ensures course.Some? && FindSection(course.value.sections, sectionId).Some? ==>
              var s := FindSection(course.value.sections, sectionId).value;
              r == (if FindQuiz(s.quizzes, quizId).Some? then FindQuiz(s.quizzes, quizId).value.attemptsAllowed else 3)
  {
    match course
    case None => 3
    case Some(c) =>
      match FindSection(c.sections, sectionId)
      case None => 3
      case Some(s) =>
        match FindQuiz(s.quizzes, quizId)
        case None => 3
        case Some(q) => q.attemptsAllowed
  }

  /** The lesson ids of the first section with this id, or none. */
  function SectionLessonIds(c: Course, sectionId: string): seq<string>
  {
    match FindSection(c.sections, sectionId)
    case None => []
    case Some(s) => LessonIds(s)
  }

  /** The completed list with every lesson of the section struck out (Kotlin `filterNot`). */
  function ResetSection(completed: seq<string>, sectionIds: seq<string>): (r: seq<string>)
    ensures forall x :: x in r <==> x in completed && x !in sectionIds
    ensures IsSubsequence(r, completed)
    ensures NoDup(completed) ==> NoDup(r)
  {
    var p := (x: string) => x !in sectionIds;
    assert NoDup(completed) ==> NoDup(Filter(completed, p)) by {
      if NoDup(completed) { FilterNoDup(completed, p); }
    }
    Filter(completed, p)
  }

  /** The percentage computed from the re-read course; 0 when it is missing. */
  function ProgressFor(course: Option<Course>, completed: seq<string>): nat
  {
    CalculateProgress(|completed|, if course.Some? then TotalLessons(course.value) else 0)
  }

  /** The attempt store and enrollment after `saveQuizAttempt`. */
  datatype AttemptResult = AttemptResult(attempts: seq<QuizAttempt>, enrollment: Option<CourseEnrollment>)

  /**
   * `saveQuizAttempt` for a signed-in student (a signed-out call returns
   * before writing).  The attempt is stored first, so the failed count
   * includes it.  A failed try that reaches the allowance resets the
   * section's lessons in the enrollment; a passed try only recomputes the
   * percentage; a failed try below the allowance writes nothing more.
   */
  function SaveQuizAttempt(attempts: seq<QuizAttempt>, attempt: QuizAttempt,
                           course: Option<Course>, enrollment: Option<CourseEnrollment>): (r: AttemptResult)
    ensures r.attempts == attempts + [attempt]
    ensures enrollment.None? ==> r.enrollment.None?
    ensures var failed := FailedAttempts(attempts, attempt.studentId, attempt.courseId, attempt.sectionId, attempt.quizId) +
                          (if attempt.hasPassed then 0 else 1);
            var reset := !attempt.hasPassed && failed >= AttemptsAllowed(course, attempt.sectionId, attempt.quizId);
            enrollment.Some? ==>
              r.enrollment.Some? &&
              var e, w := enrollment.value, r.enrollment.value;
              w == e.(completedLessons := w.completedLessons, progress := w.progress) &&
              (attempt.hasPassed ==> w.completedLessons == e.completedLessons &&
                                     w.progress == ProgressFor(course, e.completedLessons)) &&
              (reset && course.Some? ==>
                 (forall x :: x in w.completedLessons <==>
                    x in e.completedLessons && x !in SectionLessonIds(course.value, attempt.sectionId)) &&
                 IsSubsequence(w.completedLessons, e.completedLessons) &&
                 w.progress == ProgressFor(course, w.completedLessons)) &&
              (!attempt.hasPassed && (!reset || course.None?) ==> w == e)
  {
    var stored := attempts + [attempt];
    FailedAttemptsAppend(attempts, attempt);
    var failed := FailedAttempts(stored, attempt.studentId, attempt.courseId, attempt.sectionId, attempt.quizId);
    var allowed := AttemptsAllowed(course, attempt.sectionId, attempt.quizId);
    if !attempt.hasPassed && failed >= allowed then
      match (enrollment, course)
      case (Some(e), Some(c)) =>
        var updated := ResetSection(e.completedLessons, SectionLessonIds(c, attempt.sectionId));
        AttemptResult(stored, Some(e.(completedLessons := updated, progress := ProgressFor(course, updated))))
      case _ => AttemptResult(stored, enrollment)
    else if attempt.hasPassed then
      match enrollment
      case Some(e) => AttemptResult(stored, Some(e.(progress := ProgressFor(course, e.completedLessons))))
      case None => AttemptResult(stored, None)
    else
      AttemptResult(stored, enrollment)
  }

  /** A reset keeps a consistent enrollment consistent. */
  lemma SaveQuizAttemptKeepsConsistent(attempts: seq<QuizAttempt>, attempt: QuizAttempt, c: Course, e: CourseEnrollment)
    requires Consistent(e, c)
    ensures var r := SaveQuizAttempt(attempts, attempt, Some(c), Some(e));
            r.enrollment.Some? && Consistent(r.enrollment.value, c)
  {
  }

  /**
   * `canTakeQuiz`: a signed-in, enrolled student may take a section's
   * quiz when every lesson of the first section with that id is
   * recorded as completed; in every other case the answer is no.
   */
  function CanTakeQuiz(signedIn: bool, enrollment: Option<CourseEnrollment>, course: Option<Course>, sectionId: string): (r: bool)
    ensures r ==> signedIn && enrollment.Some? && course.Some? && FindSection(course.value.sections, sectionId).Some?
    ensures signedIn && enrollment.Some? && course.Some? && FindSection(course.value.sections, sectionId).Some? ==>
              (r <==> SectionComplete(FindSection(course.value.sections, sectionId).value, enrollment.value.completedLessons))
  {
    if !signedIn then false
    else match (enrollment, course)
      case (Some(e), Some(c)) =>
        (match FindSection(c.sections, sectionId)
         case None => false
         case Some(s) => forall k :: 0 <= k < |s.lessons| ==> s.lessons[k].id in e.completedLessons)
      case _ => false
  }

  /** Completing every lesson of a list, one after the other. */
  function CompleteAll(completed: seq<string>, ids: seq<string>): seq<string>
    decreases |ids|
  {
    if |ids| == 0 then completed else CompleteAll(CompleteLesson(completed, ids[0]), ids[1..])
  }

  lemma {:induction false} CompleteAllContains(completed: seq<string>, ids: seq<string>)
    ensures forall x :: x in CompleteAll(completed, ids) <==> x in completed || x in ids
    decreases |ids|
  {
    if |ids| > 0 {
      CompleteAllContains(CompleteLesson(completed, ids[0]), ids[1..]);
      assert forall x :: x in ids <==> x == ids[0] || x in ids[1..];
    }
  }

  /** Once every lesson of a section has been completed, its quiz unlocks. */
  lemma CompletingSectionUnlocksQuiz(e: CourseEnrollment, c: Course, sectionId: string)
    requires FindSection(c.sections, sectionId).Some?
    ensures var ids := LessonIds(FindSection(c.sections, sectionId).value);
            CanTakeQuiz(true, Some(e.(completedLessons := CompleteAll(e.completedLessons, ids))), Some(c), sectionId)
  {
    var s := FindSection(c.sections, sectionId).value;
    var ids := LessonIds(s);
    CompleteAllContains(e.completedLessons, ids);
    forall k | 0 <= k < |s.lessons| ensures s.lessons[k].id in CompleteAll(e.completedLessons, ids) {
      assert ids[k] == s.lessons[k].id;
    }
  }

  /** After the failed-attempt reset, a section with at least one lesson locks its quiz again. */
  lemma ResetLocksQuiz(attempts: seq<QuizAttempt>, attempt: QuizAttempt, c: Course, e: CourseEnrollment)
    requires !attempt.hasPassed
    requires FailedAttempts(attempts, attempt.studentId, attempt.courseId, attempt.sectionId, attempt.quizId) + 1
             >= AttemptsAllowed(Some(c), attempt.sectionId, attempt.quizId)
    requires FindSection(c.sections, attempt.sectionId).Some?
    requires |FindSection(c.sections, attempt.sectionId).value.lessons| > 0
    ensures var r := SaveQuizAttempt(attempts, attempt, Some(c), Some(e));
            !CanTakeQuiz(true, r.enrollment, Some(c), attempt.sectionId)
  {
    var s := FindSection(c.sections, attempt.sectionId).value;
    var r := SaveQuizAttempt(attempts, attempt, Some(c), Some(e));
    assert LessonIds(s)[0] == s.lessons[0].id;
    assert s.lessons[0].id !in r.enrollment.value.completedLessons;
  }
  // ---------------------------------------------------------------------
  // Section completion and XP
  // ---------------------------------------------------------------------

  /**
   * `completeSection`: for a signed-in user with an enrollment, the stored
   * percentage goes up by exactly one, with no upper clamp; with no user
   * id or no enrollment nothing is written.
   */
  function CompleteSection(userId: string, enrollment: Option<CourseEnrollment>): (r: Option<CourseEnrollment>)
    ensures userId == "" || enrollment.None? ==> r == enrollment
    ensures userId != "" && enrollment.Some? ==>
              r.Some? && r.value.progress == enrollment.value.progress + 1 &&
              r.value == enrollment.value.(progress := r.value.progress)
  {
    if userId == "" then enrollment
    else match enrollment
      case None => None
      case Some(e) => Some(e.(progress := e.progress + 1))
  }

  /** A completed course whose section is completed again reads 101 percent. */
  lemma CompleteSectionExceeds100(e: CourseEnrollment)
    requires e.progress == 100
    ensures CompleteSection("u", Some(e)).value.progress == 101
  {
  }

  /** `updateUserXP`: an existing user's XP grows by the amount; a missing user stays missing. */
  function UpdateUserXp(xp: Option<int>, amount: int): (r: Option<int>)
    ensures xp.None? <==> r.None?
    ensures xp.Some? ==> r.value - xp.value == amount
  {
    match xp
    case None => None
    case Some(x) => Some(x + amount)
  }
}
