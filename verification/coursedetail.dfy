/**
 * The course detail screen: whether the student is enrolled, which action
 * button it offers, the progress bar, the collapsible sections, the quiz
 * buttons and the download button.
 */
module CourseDetail {
  import opened Wrappers
  import opened Seqs
  import opened CourseModel
  import Progress
  import OfflineStore

  // ---------------------------------------------------------------------
  // Enrollment and the action button
  // ---------------------------------------------------------------------

  /** `isEnrolled`: some enrolled course has the shown course's id (false with no course shown). */
  function IsEnrolled(course: Option<Course>, enrolled: seq<Course>): (r: bool)
    ensures r <==> course.Some? && exists k :: 0 <= k < |enrolled| && enrolled[k].id == course.value.id
  {
    match course
    case None => false
    case Some(c) => IndexWhere(enrolled, (e: Course) => e.id == c.id) >= 0
  }

  /** Only the id counts: the enrolled list may hold an older copy of the course. */
  lemma EnrolledByIdOnly(a: Course, b: Course, enrolled: seq<Course>)
    requires a.id == b.id
    ensures IsEnrolled(Some(a), enrolled) == IsEnrolled(Some(b), enrolled)
  {
  }

  datatype ActionButton = EnrollButton | RateButton | NoButton

  /** What the detail column shows below the course stats. */
  datatype DetailView = DetailView(progressBar: bool, button: ActionButton)

  /**
   * The progress bar appears only for an enrolled student; the button is
   * "Enroll Now" for everyone else, "Rate this Course" for an enrolled
   * student at 100 percent, and absent otherwise.
   */
  function View(enrolled: bool, progress: int): (r: DetailView)
    ensures r.progressBar <==> enrolled
    ensures r.button == EnrollButton <==> !enrolled
    ensures r.button == RateButton <==> enrolled && progress == 100
    ensures r.button == NoButton <==> enrolled && progress != 100
  {
    DetailView(enrolled, if !enrolled then EnrollButton else if progress == 100 then RateButton else NoButton)
  }

  /**
   * With the progress the repository computes from the completed and total
   * lesson counts, the Rate button appears exactly when every lesson is
   * complete.
   */
  lemma RateExactlyWhenAllComplete(completed: nat, total: nat)
    requires 0 < total && completed <= total
    ensures View(true, Progress.CalculateProgress(completed, total)).button == RateButton <==> completed == total
  {
    Progress.ProgressBounds(completed, total);
  }

  // ---------------------------------------------------------------------
  // Collapsible sections
  // ---------------------------------------------------------------------

  /** The sections' expanded flags as the screen first shows them: all collapsed. */
  function Collapsed(n: nat): (r: seq<bool>)
    ensures |r| == n && forall k :: 0 <= k < n ==> !r[k]
  {
    seq(n, _ => false)
  }

  /** A click on a section's button flips its flag and no other. */
  function ClickSection(expanded: seq<bool>, i: int): (r: seq<bool>)
    ensures |r| == |expanded|
    ensures forall k :: 0 <= k < |r| && k != i ==> r[k] == expanded[k]
    ensures 0 <= i < |r| ==> r[i] == !expanded[i]
  {
    if 0 <= i < |expanded| then expanded[i := !expanded[i]] else expanded
  }

  function ClickSections(expanded: seq<bool>, clicks: seq<int>): (r: seq<bool>)
    ensures |r| == |expanded|
    decreases |clicks|
  {
    if |clicks| == 0 then expanded else ClickSections(ClickSection(expanded, clicks[0]), clicks[1..])
  }

  /** Two clicks on the same section restore every flag. */
  lemma ClickTwiceRestores(expanded: seq<bool>, i: int)
    ensures ClickSection(ClickSection(expanded, i), i) == expanded
  {
  }

  /** After any clicks a section is expanded exactly when it was clicked an odd number of times. */
  lemma {:induction false} ExpandedIffOddClicks(expanded: seq<bool>, clicks: seq<int>, i: int)
    requires 0 <= i < |expanded|
    ensures ClickSections(expanded, clicks)[i] == (expanded[i] != (Count(clicks, (c: int) => c == i) % 2 == 1))
    decreases |clicks|
  {
    if |clicks| > 0 {
      var p := (c: int) => c == i;
      var once := ClickSection(expanded, clicks[0]);
      var rest := Count(clicks[1..], p);
      ExpandedIffOddClicks(once, clicks[1..], i);
      assert Count(clicks, p) == (if clicks[0] == i then 1 else 0) + rest by {
        HeadTail(clicks);
        FilterConcat([clicks[0]], clicks[1..], p);
      }
      ParityStep(clicks[0] == i, rest);
    }
  }

  lemma ParityStep(b: bool, n: nat)
    ensures ((if b then 1 else 0) + n) % 2 == 1 <==> (b != (n % 2 == 1))
  {
  }

  // ---------------------------------------------------------------------
  // Quiz buttons
  // ---------------------------------------------------------------------

  datatype QuizButton = QuizButton(enabled: bool, caption: string)

  /**
   * A quiz button: enabled exactly when the section's quiz may be taken,
   * "Take Quiz" then and "Complete Lessons First" otherwise; `canTake` is
   * the flow's latest value, `None` before its first one, when it counts as
   * false.
   */
  function QuizButtonFor(canTake: Option<bool>): (r: QuizButton)
    ensures r.enabled <==> canTake == Some(true)
    ensures r.enabled ==> r.caption == "Take Quiz"
    ensures !r.enabled ==> r.caption == "Complete Lessons First"
  {
    var ok := canTake.GetOr(false);
    QuizButton(ok, if ok then "Take Quiz" else "Complete Lessons First")
  }

  /** Once every lesson of a section is complete, its quiz buttons are enabled. */
  lemma CompletedSectionEnablesQuiz(e: CourseEnrollment, c: Course, sectionId: string)
    requires FindSection(c.sections, sectionId).Some?
    ensures var ids := LessonIds(FindSection(c.sections, sectionId).value);
            var e' := e.(completedLessons := Progress.CompleteAll(e.completedLessons, ids));
            QuizButtonFor(Some(Progress.CanTakeQuiz(true, Some(e'), Some(c), sectionId))).enabled
  {
    Progress.CompletingSectionUnlocksQuiz(e, c, sectionId);
  }

  // ---------------------------------------------------------------------
  // The download button
  // ---------------------------------------------------------------------

  /** `isDownloaded` as written: the shown course is equal, field by field, to a downloaded one. */
  predicate IsDownloaded(course: Option<Course>, downloaded: seq<Course>)
  {
    course.Some? && course.value in downloaded
  }

  /** The download button is enabled while the course does not count as downloaded. */
  predicate DownloadEnabled(course: Option<Course>, downloaded: seq<Course>)
  {
    !IsDownloaded(course, downloaded)
  }

  /**
   * A course rebuilt from the store has no image, no enrolled students, no
   * duration, rating and price 0 and the load's clock reading, so a course
   * shown from the server with any of these set never equals one of them.
   */
  lemma DownloadedNeverMatches(db: OfflineStore.Db, c: Course, now: int)
    requires c.imageUrl != "" || c.enrolledStudents != 0 || c.duration != "" || c.rating != 0.0 ||
             c.price != 0.0 || c.createdAt != now
    ensures !IsDownloaded(Some(c), OfflineStore.LoadDownloadedCourses(db, now))
  {
    var loaded := OfflineStore.LoadDownloadedCourses(db, now);
    forall k | 0 <= k < |loaded| ensures loaded[k] != c {
      assert loaded[k] == OfflineStore.DecodeCourse(db, db.courses[k], now);
    }
  }

  /** Hence, as written, the button stays enabled right after the course is downloaded. */
  lemma DownloadButtonStaysEnabled(db: OfflineStore.Db, c: Course, dir: string, now: int)
    requires c.imageUrl != ""
    ensures DownloadEnabled(Some(c), OfflineStore.LoadDownloadedCourses(OfflineStore.Download(db, c, dir), now))
  {
    DownloadedNeverMatches(OfflineStore.Download(db, c, dir), c, now);
  }

  /** `isDownloaded` matching by id, as the enrollment check does. */
  predicate IsDownloadedById(course: Option<Course>, downloaded: seq<Course>)
  {
    course.Some? && exists k :: 0 <= k < |downloaded| && downloaded[k].id == course.value.id
  }

  predicate DownloadEnabledById(course: Option<Course>, downloaded: seq<Course>)
  {
    !IsDownloadedById(course, downloaded)
  }

  /** Matching by id, the button is disabled once the course has been downloaded. */
  lemma DownloadDisablesButton(db: OfflineStore.Db, c: Course, dir: string, now: int)
    ensures !DownloadEnabledById(Some(c), OfflineStore.LoadDownloadedCourses(OfflineStore.Download(db, c, dir), now))
  {
    var d := OfflineStore.Download(db, c, dir);
    var k := |d.courses| - 1;
    assert d.courses[k] == OfflineStore.CourseRowOf(c);
    assert OfflineStore.LoadDownloadedCourses(d, now)[k].id == c.id;
  }

  /** Matching by id, removing the download enables the button again. */
  lemma RemoveEnablesButton(db: OfflineStore.Db, c: Course, now: int)
    ensures DownloadEnabledById(Some(c), OfflineStore.LoadDownloadedCourses(OfflineStore.RemoveDownloadedCourse(db, c.id), now))
  {
    var d := OfflineStore.RemoveDownloadedCourse(db, c.id);
    var loaded := OfflineStore.LoadDownloadedCourses(d, now);
    forall k | 0 <= k < |loaded| ensures loaded[k].id != c.id {
      assert d.courses[k] in d.courses;
    }
  }
}
