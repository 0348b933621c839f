/**
 * The course editor screen's three add dialogs (section, lesson, quiz):
 * when Add closes the dialog, what reaches the view model, and how the
 * numeric quiz fields fall back to their defaults.
 */
module CourseEditor {
  import opened Wrappers
  import opened Seqs
  import opened Text
  import opened CourseModel
  import CourseEdits

  /**
   * What pressing Add leaves behind: the dialog still open with nothing
   * written, the dialog closed with the selected course afterwards, or an
   * uncaught index-out-of-bounds exception.
   */
  datatype Outcome = Stays | Closes(course: Option<Course>) | Crash

  // ---------------------------------------------------------------------
  // Add section
  // ---------------------------------------------------------------------

  /**
   * Add section: a non-blank title appends an empty section to the
   * selected course and closes the dialog; a blank one does nothing.
   */
  function ConfirmAddSection(title: string, course: Option<Course>, sectionId: string): (r: Outcome)
    ensures r.Stays? <==> IsBlank(title)
    ensures !r.Crash?
    ensures r.Closes? ==> (course.None? <==> r.course.None?)
    ensures r.Closes? && course.Some? ==>
              var c, t := course.value, r.course.value;
              t == c.(sections := t.sections) && |t.sections| == |c.sections| + 1 &&
              t.sections[..|c.sections|] == c.sections &&
              t.sections[|c.sections|] == NewSection(sectionId, title)
  {
    if IsBlank(title) then Stays
    else match course
      case None => Closes(None)
      case Some(c) => Closes(Some(CourseEdits.AddSection(c, sectionId, title)))
  }

  /** A section added under a fresh id is the one the screens find for that id. */
  lemma AddedSectionIsFound(title: string, c: Course, sectionId: string)
    requires !IsBlank(title) && CourseEdits.NoSectionWithId(c, sectionId)
    ensures var t := ConfirmAddSection(title, Some(c), sectionId).course.value;
            FindSection(t.sections, sectionId) == Some(NewSection(sectionId, title))
  {
    var t := ConfirmAddSection(title, Some(c), sectionId).course.value;
    var p := (s: CourseSection) => s.id == sectionId;
    assert p(t.sections[|c.sections|]);
    assert forall k :: 0 <= k < |c.sections| ==> !p(t.sections[k]);
  }

  // ---------------------------------------------------------------------
  // Add lesson
  // ---------------------------------------------------------------------

  /** The state of one file picker at Add: nothing picked, picked and uploaded to a url, or the upload failed. */
  datatype Upload = NoFile | Uploaded(url: string) | UploadFailed

  /** The url stored for a picker: the download url, "" when nothing was picked or the upload failed. */
  function UrlOf(u: Upload): (r: string)
    ensures u.Uploaded? ==> r == u.url
    ensures !u.Uploaded? ==> r == ""
  {
    match u
    case Uploaded(url) => url
    case _ => ""
  }

  datatype LessonForm = LessonForm(title: string, description: string, duration: string,
                                   video: Upload, pdf: Upload, image: Upload)

  /** The lesson `addLessonWithFiles` hands on. */
  function FormLesson(f: LessonForm, lessonId: string): (l: Lesson)
    ensures l.id == lessonId && l.title == f.title && l.description == f.description && l.duration == f.duration
    ensures l.videoUrl == UrlOf(f.video) && l.pdfUrl == UrlOf(f.pdf) && l.imageUrl == UrlOf(f.image)
  {
    Lesson(lessonId, f.title, f.description, f.duration, UrlOf(f.video), UrlOf(f.pdf), UrlOf(f.image))
  }

  /** The lesson dialog is shown for a requested, non-negative section index while a course is selected. */
  predicate LessonDialogShown(requested: bool, course: Option<Course>, index: int)
  {
    requested && course.Some? && index >= 0
  }

  /**
   * Add lesson as written: a non-blank title reads `sections[index]` with
   * no upper-bound check, so an index past the end throws; otherwise the
   * lesson goes into the section with that section's id, provided a user
   * is signed in (without one `addLessonWithFiles` returns before any
   * write), and the dialog closes.
   */
  function ConfirmAddLesson(f: LessonForm, course: Option<Course>, index: int, signedIn: bool,
                            lessonId: string): (r: Outcome)
    ensures r.Stays? <==> IsBlank(f.title)
    ensures r.Crash? <==> !IsBlank(f.title) && course.Some? && !(0 <= index < |course.value.sections|)
    ensures r.Closes? ==> (course.None? <==> r.course.None?)
    ensures r.Closes? && course.Some? && !signedIn ==> r.course == course
    ensures r.Closes? && course.Some? && signedIn ==>
              var c, t := course.value, r.course.value;
              CourseEdits.OnlySectionChanged(c, t, c.sections[index].id) &&
              t.sections[index] == c.sections[index].(lessons := c.sections[index].lessons + [FormLesson(f, lessonId)])
  {
    if IsBlank(f.title) then Stays
    else match course
      case None => Closes(None)
      case Some(c) =>
        if index < 0 || index >= |c.sections| then Crash
        else if signedIn then Closes(Some(CourseEdits.AddLesson(c, c.sections[index].id, FormLesson(f, lessonId))))
        else Closes(course)
  }

  /** The dialog's index is only bounded below: a selected course with no sections and index 0 throws. */
  lemma AddLessonPastEndCrashes(f: LessonForm, c: Course, signedIn: bool, lessonId: string)
    requires !IsBlank(f.title) && |c.sections| == 0
    requires LessonDialogShown(true, Some(c), 0)
    ensures ConfirmAddLesson(f, Some(c), 0, signedIn, lessonId) == Crash
  {
  }

  /**
   * Add lesson with the range check the quiz dialog applies: an index
   * outside the section list closes the dialog without writing.
   */
  function ConfirmAddLessonChecked(f: LessonForm, course: Option<Course>, index: int, signedIn: bool,
                                   lessonId: string): (r: Outcome)
    ensures !r.Crash?
    ensures r.Stays? <==> IsBlank(f.title)
    ensures r.Closes? ==> (course.None? <==> r.course.None?)
    ensures r.Closes? && (course.None? || !signedIn || !(0 <= index < |course.value.sections|)) ==> r.course == course
    ensures r.Closes? && course.Some? && signedIn && 0 <= index < |course.value.sections| ==>
              var c, t := course.value, r.course.value;
              CourseEdits.OnlySectionChanged(c, t, c.sections[index].id) &&
              t.sections[index] == c.sections[index].(lessons := c.sections[index].lessons + [FormLesson(f, lessonId)])
  {
    if IsBlank(f.title) then Stays
    else match course
      case None => Closes(None)
      case Some(c) =>
        if 0 <= index < |c.sections| && signedIn then
          Closes(Some(CourseEdits.AddLesson(c, c.sections[index].id, FormLesson(f, lessonId))))
        else Closes(course)
  }

  /** Where the written dialog does not throw, the checked one does exactly the same. */
  lemma CheckedAgreesWhereNoCrash(f: LessonForm, course: Option<Course>, index: int, signedIn: bool, lessonId: string)
    ensures !ConfirmAddLesson(f, course, index, signedIn, lessonId).Crash? ==>
              ConfirmAddLessonChecked(f, course, index, signedIn, lessonId) == ConfirmAddLesson(f, course, index, signedIn, lessonId)
    ensures ConfirmAddLesson(f, course, index, signedIn, lessonId).Crash? ==>
              ConfirmAddLessonChecked(f, course, index, signedIn, lessonId) == Closes(course)
  {
  }

  // ---------------------------------------------------------------------
  // Add quiz
  // ---------------------------------------------------------------------

  datatype QuizForm = QuizForm(title: string, description: string, passingScore: string,
                               timeLimit: string, attemptsAllowed: string)

  /** The quiz dialog as it opens: empty texts and the numbers "70", "0" and "1". */
  function NewQuizForm(): (r: QuizForm)
    ensures r.title == "" && r.description == ""
    ensures ParseInt(r.passingScore) == Some(70) && ParseInt(r.timeLimit) == Some(0) &&
            ParseInt(r.attemptsAllowed) == Some(1)
  {
    ParseIntToString(70);
    ParseIntToString(0);
    ParseIntToString(1);
    QuizForm("", "", IntToString(70), IntToString(0), IntToString(1))
  }

  /** The quiz the dialog hands on: each number parsed as an `Int`, falling back to 70, 0 and 1. */
  function FormQuiz(f: QuizForm, quizId: string): (q: Quiz)
    ensures q.id == quizId && q.title == f.title && q.description == f.description && q.questions == []
    ensures q.passingScore == if ParseInt(f.passingScore).Some? then ParseInt(f.passingScore).value else 70
    ensures q.timeLimit == if ParseInt(f.timeLimit).Some? then ParseInt(f.timeLimit).value else 0
    ensures q.attemptsAllowed == if ParseInt(f.attemptsAllowed).Some? then ParseInt(f.attemptsAllowed).value else 1
  {
    Quiz(quizId, f.title, f.description, [], ParseIntOr(f.passingScore, 70), ParseIntOr(f.timeLimit, 0),
         ParseIntOr(f.attemptsAllowed, 1))
  }

  /**
   * Add quiz: a non-blank title closes the dialog; the quiz is written only
   * when the index lies inside the section list, into the section with
   * that section's id.
   */
  function ConfirmAddQuiz(f: QuizForm, course: Option<Course>, index: int, quizId: string): (r: Outcome)
    ensures !r.Crash?
    ensures r.Stays? <==> IsBlank(f.title)
    ensures r.Closes? ==> (course.None? <==> r.course.None?)
    ensures r.Closes? && (course.None? || !(0 <= index < |course.value.sections|)) ==> r.course == course
    ensures r.Closes? && course.Some? && 0 <= index < |course.value.sections| ==>
              var c, t := course.value, r.course.value;
              CourseEdits.OnlySectionChanged(c, t, c.sections[index].id) &&
              t.sections[index] == c.sections[index].(quizzes := c.sections[index].quizzes + [FormQuiz(f, quizId)])
  {
    if IsBlank(f.title) then Stays
    else match course
      case None => Closes(None)
      case Some(c) =>
        if 0 <= index < |c.sections| then
          var q := FormQuiz(f, quizId);
          Closes(Some(CourseEdits.AddQuiz(c, c.sections[index].id, quizId, q.title, q.description,
                                          q.passingScore, q.timeLimit, q.attemptsAllowed)))
        else Closes(course)
  }

  /** With its numbers untouched, the dialog adds exactly the quiz the model's defaults describe. */
  lemma UntouchedQuizFormGivesDefaults(title: string, description: string, quizId: string)
    ensures FormQuiz(NewQuizForm().(title := title, description := description), quizId) == NewQuiz(quizId, title, description)
  {
  }
}
