/**
 * The editing operations the instructor screens apply to the selected
 * course: every one rebuilds the section list with a `map` that touches
 * only the section whose id matches, and inside it only the lesson, quiz
 * or question whose id matches.  Generated UUIDs arrive as the ids of the
 * lesson, quiz or question being added.
 */
module CourseEdits {
  import opened Wrappers
  import opened Seqs
  import opened CourseModel

  // ---------------------------------------------------------------------
  // Id-targeted maps
  // ---------------------------------------------------------------------

  /** Kotlin `sections.map { if (it.id == sectionId) f(it) else it }`. */
  function MapSection(sections: seq<CourseSection>, sectionId: string, f: CourseSection -> CourseSection): (r: seq<CourseSection>)
    ensures |r| == |sections|
    ensures forall i :: 0 <= i < |r| ==> r[i] == if sections[i].id == sectionId then f(sections[i]) else sections[i]
    ensures (forall i :: 0 <= i < |sections| && sections[i].id == sectionId ==> f(sections[i]) == sections[i]) ==> r == sections
  {
    Map(sections, (s: CourseSection) => if s.id == sectionId then f(s) else s)
  }

  /** Kotlin `lessons.map { if (it.id == lessonId) g(it) else it }`. */
  function MapLesson(lessons: seq<Lesson>, lessonId: string, g: Lesson -> Lesson): (r: seq<Lesson>)
    ensures |r| == |lessons|
    ensures forall k :: 0 <= k < |r| ==> r[k] == if lessons[k].id == lessonId then g(lessons[k]) else lessons[k]
    ensures (forall k :: 0 <= k < |lessons| && lessons[k].id == lessonId ==> g(lessons[k]) == lessons[k]) ==> r == lessons
  {
    Map(lessons, (l: Lesson) => if l.id == lessonId then g(l) else l)
  }

  /** Kotlin `quizzes.map { if (it.id == quizId) g(it) else it }`. */
  function MapQuiz(quizzes: seq<Quiz>, quizId: string, g: Quiz -> Quiz): (r: seq<Quiz>)
    ensures |r| == |quizzes|
    ensures forall k :: 0 <= k < |r| ==> r[k] == if quizzes[k].id == quizId then g(quizzes[k]) else quizzes[k]
  {
    Map(quizzes, (q: Quiz) => if q.id == quizId then g(q) else q)
  }

  /**
   * The frame every section-targeted edit keeps: all course fields but
   * `sections` are unchanged, the sections keep their number, order and
   * ids, and a section whose id is not `sectionId` is untouched.
   */
  predicate OnlySectionChanged(c: Course, r: Course, sectionId: string)
  {
    r == c.(sections := r.sections) &&
    |r.sections| == |c.sections| &&
    (forall i :: 0 <= i < |c.sections| ==> r.sections[i].id == c.sections[i].id) &&
    (forall i :: 0 <= i < |c.sections| && c.sections[i].id != sectionId ==> r.sections[i] == c.sections[i])
  }

  /** The frame inside a targeted section when the edit is on one quiz. */
  predicate OnlyQuizChanged(s: CourseSection, t: CourseSection, quizId: string)
  {
    t == s.(quizzes := t.quizzes) &&
    |t.quizzes| == |s.quizzes| &&
    (forall k :: 0 <= k < |s.quizzes| ==> t.quizzes[k].id == s.quizzes[k].id) &&
    (forall k :: 0 <= k < |s.quizzes| && s.quizzes[k].id != quizId ==> t.quizzes[k] == s.quizzes[k])
  }

  predicate NoSectionWithId(c: Course, sectionId: string)
  {
    forall i :: 0 <= i < |c.sections| ==> c.sections[i].id != sectionId
  }

  // ---------------------------------------------------------------------
  // Section and course level
  // ---------------------------------------------------------------------

  /** `addSectionToCourse` (view model): one new empty section at the end. */
  function AddSection(c: Course, sectionId: string, title: string): (r: Course)
    ensures r == c.(sections := r.sections)
    ensures |r.sections| == |c.sections| + 1 && r.sections[..|c.sections|] == c.sections
    ensures r.sections[|c.sections|].id == sectionId && r.sections[|c.sections|].title == title
    ensures |r.sections[|c.sections|].lessons| == 0 && |r.sections[|c.sections|].quizzes| == 0
    ensures TotalLessons(r) == TotalLessons(c)
  {
    var r := c.(sections := c.sections + [NewSection(sectionId, title)]);
    SumOfConcat(c.sections, [NewSection(sectionId, title)], (s: CourseSection) => |s.lessons|);
    r
  }

  /** `updateCourseInfo`: description and category replaced, the tree untouched. */
  function UpdateCourseInfo(c: Course, description: string, category: string): (r: Course)
    ensures r.description == description && r.category == category
    ensures r.sections == c.sections && r.id == c.id && r.title == c.title && r.instructor == c.instructor
    ensures r.enrolledStudents == c.enrolledStudents && r.imageUrl == c.imageUrl
  {
    c.(description := description, category := category)
  }

  /**
   * `createCourse`: the `instructor` field receives the instructor's user
   * id; the display-name argument the screen passes is not used.
   */
  function CreateCourse(courseId: string, title: string, description: string, instructorName: string,
                        imageUrl: string, sections: seq<CourseSection>, instructorId: string,
                        category: string, createdAt: int): (r: Course)
    ensures r.id == courseId && r.title == title && r.description == description
    ensures r.instructor == instructorId && r.imageUrl == imageUrl && r.category == category
    ensures r.sections == sections && r.enrolledStudents == 0
  {
    NewCourse(courseId, title, description, imageUrl, instructorId, "", category, 0.0, createdAt).(sections := sections)
  }

  /** The display name passed to `createCourse` never reaches the stored course. */
  lemma CreateCourseIgnoresName(courseId: string, title: string, description: string, name1: string, name2: string,
                                imageUrl: string, sections: seq<CourseSection>, instructorId: string,
                                category: string, createdAt: int)
    ensures CreateCourse(courseId, title, description, name1, imageUrl, sections, instructorId, category, createdAt)
         == CreateCourse(courseId, title, description, name2, imageUrl, sections, instructorId, category, createdAt)
  {
  }

  /** The lists `deleteCourse` updates after the remote delete. */
  datatype EditorState = EditorState(selected: Option<Course>, instructorCourses: seq<Course>, courses: seq<Course>)

  /** `deleteCourse`: clears the selection and drops the course from both lists. */
  function DeleteCourse(st: EditorState, courseId: string): (r: EditorState)
    ensures r.selected.None?
    ensures forall x :: x in r.courses <==> x in st.courses && x.id != courseId
    ensures forall x :: x in r.instructorCourses <==> x in st.instructorCourses && x.id != courseId
    ensures IsSubsequence(r.courses, st.courses) && IsSubsequence(r.instructorCourses, st.instructorCourses)
  {
    EditorState(None,
                Filter(st.instructorCourses, (x: Course) => x.id != courseId),
                Filter(st.courses, (x: Course) => x.id != courseId))
  }

  // ---------------------------------------------------------------------
  // Lessons
  // ---------------------------------------------------------------------

  /** `addLessonToSection` (view model): the lesson is appended to each section with the id. */
  function AddLesson(c: Course, sectionId: string, lesson: Lesson): (r: Course)
    ensures OnlySectionChanged(c, r, sectionId)
    ensures forall i :: 0 <= i < |c.sections| && c.sections[i].id == sectionId ==>
              r.sections[i] == c.sections[i].(lessons := c.sections[i].lessons + [lesson])
    ensures NoSectionWithId(c, sectionId) ==> r == c
  {
    c.(sections := MapSection(c.sections, sectionId, (s: CourseSection) => s.(lessons := s.lessons + [lesson])))
  }

  /**
   * `updateLesson`: in the targeted section, every lesson with the id gets
   * the new title, description and duration; its media urls are kept.
   */
  function UpdateLesson(c: Course, sectionId: string, lessonId: string,
                        title: string, description: string, duration: string): (r: Course)
    ensures OnlySectionChanged(c, r, sectionId)
    ensures forall i :: 0 <= i < |c.sections| && c.sections[i].id == sectionId ==>
              var s, t := c.sections[i], r.sections[i];
              t == s.(lessons := t.lessons) && |t.lessons| == |s.lessons| &&
              forall k :: 0 <= k < |s.lessons| ==>
                t.lessons[k] == if s.lessons[k].id == lessonId
                                then s.lessons[k].(title := title, description := description, duration := duration)
                                else s.lessons[k]
    ensures NoSectionWithId(c, sectionId) ==> r == c
  {
    c.(sections := MapSection(c.sections, sectionId, (s: CourseSection) =>
      s.(lessons := MapLesson(s.lessons, lessonId, (l: Lesson) =>
        l.(title := title, description := description, duration := duration)))))
  }

  /** `deleteLesson`: the targeted section loses exactly the lessons with the id, the rest keep their order. */
  function DeleteLesson(c: Course, sectionId: string, lessonId: string): (r: Course)
    ensures OnlySectionChanged(c, r, sectionId)
    ensures forall i :: 0 <= i < |c.sections| && c.sections[i].id == sectionId ==>
              var s, t := c.sections[i], r.sections[i];
              t == s.(lessons := t.lessons) && !HasLesson(t, lessonId) &&
              IsSubsequence(t.lessons, s.lessons) &&
              forall l :: l in t.lessons <==> l in s.lessons && l.id != lessonId
    ensures NoSectionWithId(c, sectionId) ==> r == c
  {
    c.(sections := MapSection(c.sections, sectionId, (s: CourseSection) =>
      s.(lessons := Filter(s.lessons, (l: Lesson) => l.id != lessonId))))
  }

  /** Deleting a lesson just added, under an id the section did not use, restores the course. */
  lemma DeleteLessonAfterAdd(c: Course, sectionId: string, lesson: Lesson)
    requires forall i :: 0 <= i < |c.sections| && c.sections[i].id == sectionId ==> !HasLesson(c.sections[i], lesson.id)
    ensures DeleteLesson(AddLesson(c, sectionId, lesson), sectionId, lesson.id) == c
  {
    var a := AddLesson(c, sectionId, lesson);
    var r := DeleteLesson(a, sectionId, lesson.id);
    forall i | 0 <= i < |c.sections|
      ensures r.sections[i] == c.sections[i]
    {
      if c.sections[i].id == sectionId {
        var ls := c.sections[i].lessons;
        var p := (l: Lesson) => l.id != lesson.id;
        assert a.sections[i].lessons == ls + [lesson];
        FilterDropsAppended(ls, lesson, p);
        assert r.sections[i].lessons == Filter(ls + [lesson], p);
      }
    }
  }

  /** The three media kinds a lesson carries. */
  datatype MediaKind = Image | Video | Pdf

  /** The `when (mediaType)` dispatch: "image", "video" and "pdf" name a field, anything else none. */
  function ParseMediaKind(mediaType: string): (r: Option<MediaKind>)
    ensures r == Some(Image) <==> mediaType == "image"
    ensures r == Some(Video) <==> mediaType == "video"
    ensures r == Some(Pdf) <==> mediaType == "pdf"
  {
    if mediaType == "image" then Some(Image)
    else if mediaType == "video" then Some(Video)
    else if mediaType == "pdf" then Some(Pdf)
    else None
  }

  function MediaUrl(l: Lesson, kind: MediaKind): string
  {
    match kind
    case Image => l.imageUrl
    case Video => l.videoUrl
    case Pdf => l.pdfUrl
  }

  /** The lesson with the url of the named kind replaced; an unknown kind leaves it as is. */
  function SetMedia(l: Lesson, mediaType: string, url: string): (r: Lesson)
    ensures ParseMediaKind(mediaType).None? ==> r == l
    ensures ParseMediaKind(mediaType).Some? ==>
              var kind := ParseMediaKind(mediaType).value;
              MediaUrl(r, kind) == url &&
              forall other :: other != kind ==> MediaUrl(r, other) == MediaUrl(l, other)
    ensures r.id == l.id && r.title == l.title && r.description == l.description && r.duration == l.duration
  {
    match ParseMediaKind(mediaType)
    case None => l
    case Some(Image) => l.(imageUrl := url)
    case Some(Video) => l.(videoUrl := url)
    case Some(Pdf) => l.(pdfUrl := url)
  }

  /** `updateLessonMedia`: the uploaded file's download url goes into the field `mediaType` names. */
  function UpdateLessonMedia(c: Course, sectionId: string, lessonId: string, mediaType: string, downloadUrl: string): (r: Course)
    ensures OnlySectionChanged(c, r, sectionId)
    ensures forall i :: 0 <= i < |c.sections| && c.sections[i].id == sectionId ==>
              var s, t := c.sections[i], r.sections[i];
              t == s.(lessons := t.lessons) && |t.lessons| == |s.lessons| &&
              forall k :: 0 <= k < |s.lessons| ==>
                t.lessons[k] == if s.lessons[k].id == lessonId then SetMedia(s.lessons[k], mediaType, downloadUrl) else s.lessons[k]
    ensures ParseMediaKind(mediaType).None? ==> r == c
  {
    c.(sections := MapSection(c.sections, sectionId, (s: CourseSection) =>
      s.(lessons := MapLesson(s.lessons, lessonId, (l: Lesson) =>
        match mediaType
        case "image" => l.(imageUrl := downloadUrl)
        case "video" => l.(videoUrl := downloadUrl)
        case "pdf" => l.(pdfUrl := downloadUrl)
        case _ => l))))
  }

  /** `deleteLessonMedia`: the field `mediaType` names is cleared to "". */
  function DeleteLessonMedia(c: Course, sectionId: string, lessonId: string, mediaType: string): (r: Course)
    ensures OnlySectionChanged(c, r, sectionId)
    ensures forall i :: 0 <= i < |c.sections| && c.sections[i].id == sectionId ==>
              var s, t := c.sections[i], r.sections[i];
              t == s.(lessons := t.lessons) && |t.lessons| == |s.lessons| &&
              forall k :: 0 <= k < |s.lessons| ==>
                t.lessons[k] == if s.lessons[k].id == lessonId then SetMedia(s.lessons[k], mediaType, "") else s.lessons[k]
    ensures ParseMediaKind(mediaType).None? ==> r == c
  {
    c.(sections := MapSection(c.sections, sectionId, (s: CourseSection) =>
      s.(lessons := MapLesson(s.lessons, lessonId, (l: Lesson) =>
        match mediaType
        case "image" => l.(imageUrl := "")
        case "video" => l.(videoUrl := "")
        case "pdf" => l.(pdfUrl := "")
        case _ => l))))
  }

  /** The two hand-written copies agree: deleting media is uploading the empty url. */
  lemma DeleteMediaIsEmptyUpdate(c: Course, sectionId: string, lessonId: string, mediaType: string)
    ensures DeleteLessonMedia(c, sectionId, lessonId, mediaType) == UpdateLessonMedia(c, sectionId, lessonId, mediaType, "")
  {
    var d := DeleteLessonMedia(c, sectionId, lessonId, mediaType);
    var u := UpdateLessonMedia(c, sectionId, lessonId, mediaType, "");
    forall i | 0 <= i < |c.sections| ensures d.sections[i] == u.sections[i] {
      if c.sections[i].id == sectionId {
        assert d.sections[i].lessons == u.sections[i].lessons;
      }
    }
  }

  /** A delete after an upload of the same kind leaves what a delete alone leaves. */
  lemma DeleteMediaAfterUpdate(c: Course, sectionId: string, lessonId: string, mediaType: string, url: string)
    ensures DeleteLessonMedia(UpdateLessonMedia(c, sectionId, lessonId, mediaType, url), sectionId, lessonId, mediaType)
         == DeleteLessonMedia(c, sectionId, lessonId, mediaType)
  {
    var a := DeleteLessonMedia(UpdateLessonMedia(c, sectionId, lessonId, mediaType, url), sectionId, lessonId, mediaType);
    var b := DeleteLessonMedia(c, sectionId, lessonId, mediaType);
    forall i | 0 <= i < |c.sections| ensures a.sections[i] == b.sections[i] {
      if c.sections[i].id == sectionId {
        assert a.sections[i].lessons == b.sections[i].lessons;
      }
    }
  }

  /** `uploadFileToFirebase`: the storage path for an upload of kind `mediaType` under a fresh `uuid`. */
  function UploadPath(mediaType: string, uuid: string): (r: string)
    ensures ParseMediaKind(mediaType).None? ==> r == "lessons/" + mediaType + "s/" + uuid
    ensures mediaType == "image" ==> r == "lessons/images/" + uuid + ".jpg"
    ensures mediaType == "video" ==> r == "lessons/videos/" + uuid + ".mp4"
    ensures mediaType == "pdf" ==> r == "lessons/pdfs/" + uuid + ".pdf"
  {
    var ext := match mediaType
      case "image" => ".jpg"
      case "video" => ".mp4"
      case "pdf" => ".pdf"
      case _ => "";
    "lessons/" + mediaType + "s/" + uuid + ext
  }

  // ---------------------------------------------------------------------
  // Quizzes and questions
  // ---------------------------------------------------------------------

  /** `addQuizToSection`: a quiz with no questions and the form's settings, appended to each matching section. */
  function AddQuiz(c: Course, sectionId: string, quizId: string, title: string, description: string,
                   passingScore: int, timeLimit: int, attemptsAllowed: int): (r: Course)
    ensures OnlySectionChanged(c, r, sectionId)
    ensures forall i :: 0 <= i < |c.sections| && c.sections[i].id == sectionId ==>
              var s, t := c.sections[i], r.sections[i];
              t == s.(quizzes := t.quizzes) && |t.quizzes| == |s.quizzes| + 1 &&
              t.quizzes[..|s.quizzes|] == s.quizzes &&
              t.quizzes[|s.quizzes|] == Quiz(quizId, title, description, [], passingScore, timeLimit, attemptsAllowed)
    ensures NoSectionWithId(c, sectionId) ==> r == c
  {
    var quiz := NewQuiz(quizId, title, description).(passingScore := passingScore, timeLimit := timeLimit,
                                                    attemptsAllowed := attemptsAllowed);
    c.(sections := MapSection(c.sections, sectionId, (s: CourseSection) => s.(quizzes := s.quizzes + [quiz])))
  }

  /** `deleteQuiz`: the targeted section loses exactly the quizzes with the id. */
  function DeleteQuiz(c: Course, sectionId: string, quizId: string): (r: Course)
    ensures OnlySectionChanged(c, r, sectionId)
    ensures forall i :: 0 <= i < |c.sections| && c.sections[i].id == sectionId ==>
              var s, t := c.sections[i], r.sections[i];
              t == s.(quizzes := t.quizzes) && FindQuiz(t.quizzes, quizId).None? &&
              IsSubsequence(t.quizzes, s.quizzes) &&
              forall q :: q in t.quizzes <==> q in s.quizzes && q.id != quizId
    ensures NoSectionWithId(c, sectionId) ==> r == c
  {
    c.(sections := MapSection(c.sections, sectionId, (s: CourseSection) =>
      s.(quizzes := Filter(s.quizzes, (q: Quiz) => q.id != quizId))))
  }

  /** Deleting a quiz just added, under an id the section did not use, restores the course. */
  lemma DeleteQuizAfterAdd(c: Course, sectionId: string, quizId: string, title: string, description: string,
                           passingScore: int, timeLimit: int, attemptsAllowed: int)
    requires forall i :: 0 <= i < |c.sections| && c.sections[i].id == sectionId ==>
               FindQuiz(c.sections[i].quizzes, quizId).None?
    ensures DeleteQuiz(AddQuiz(c, sectionId, quizId, title, description, passingScore, timeLimit, attemptsAllowed),
                       sectionId, quizId) == c
  {
    var a := AddQuiz(c, sectionId, quizId, title, description, passingScore, timeLimit, attemptsAllowed);
    var r := DeleteQuiz(a, sectionId, quizId);
    forall i | 0 <= i < |c.sections|
      ensures r.sections[i] == c.sections[i]
    {
      if c.sections[i].id == sectionId {
        var qs := c.sections[i].quizzes;
        var quiz := a.sections[i].quizzes[|qs|];
        var p := (q: Quiz) => q.id != quizId;
        assert a.sections[i].quizzes == qs + [quiz];
        FilterDropsAppended(qs, quiz, p);
        assert r.sections[i].quizzes == Filter(qs + [quiz], p);
      }
    }
  }

  /** `addQuestionToQuiz`: the question is appended to each matching quiz of each matching section. */
  function AddQuestion(c: Course, sectionId: string, quizId: string, question: Question): (r: Course)
    ensures OnlySectionChanged(c, r, sectionId)
    ensures forall i :: 0 <= i < |c.sections| && c.sections[i].id == sectionId ==>
              var s, t := c.sections[i], r.sections[i];
              OnlyQuizChanged(s, t, quizId) &&
              forall k :: 0 <= k < |s.quizzes| && s.quizzes[k].id == quizId ==>
                t.quizzes[k] == s.quizzes[k].(questions := s.quizzes[k].questions + [question])
    ensures NoSectionWithId(c, sectionId) ==> r == c
  {
    c.(sections := MapSection(c.sections, sectionId, (s: CourseSection) =>
      s.(quizzes := MapQuiz(s.quizzes, quizId, (q: Quiz) => q.(questions := q.questions + [question])))))
  }

  /** `deleteQuestionFromQuiz`: each matching quiz loses exactly the questions with the id. */
  function DeleteQuestion(c: Course, sectionId: string, quizId: string, questionId: string): (r: Course)
    ensures OnlySectionChanged(c, r, sectionId)
    ensures forall i :: 0 <= i < |c.sections| && c.sections[i].id == sectionId ==>
              var s, t := c.sections[i], r.sections[i];
              OnlyQuizChanged(s, t, quizId) &&
              forall k :: 0 <= k < |s.quizzes| && s.quizzes[k].id == quizId ==>
                t.quizzes[k] == s.quizzes[k].(questions := t.quizzes[k].questions) &&
                IsSubsequence(t.quizzes[k].questions, s.quizzes[k].questions) &&
                forall x :: x in t.quizzes[k].questions <==> x in s.quizzes[k].questions && x.id != questionId
    ensures NoSectionWithId(c, sectionId) ==> r == c
  {
    c.(sections := MapSection(c.sections, sectionId, (s: CourseSection) =>
      s.(quizzes := MapQuiz(s.quizzes, quizId, (q: Quiz) =>
        q.(questions := Filter(q.questions, (x: Question) => x.id != questionId))))))
  }

  /** Deleting a question just added, under an id its quiz did not use, restores the course. */
  lemma DeleteQuestionAfterAdd(c: Course, sectionId: string, quizId: string, question: Question)
    requires forall i, k :: (0 <= i < |c.sections| && c.sections[i].id == sectionId &&
                             0 <= k < |c.sections[i].quizzes| && c.sections[i].quizzes[k].id == quizId) ==>
               forall j :: 0 <= j < |c.sections[i].quizzes[k].questions| ==>
                 c.sections[i].quizzes[k].questions[j].id != question.id
    ensures DeleteQuestion(AddQuestion(c, sectionId, quizId, question), sectionId, quizId, question.id) == c
  {
    var r := DeleteQuestion(AddQuestion(c, sectionId, quizId, question), sectionId, quizId, question.id);
    forall i | 0 <= i < |c.sections|
      ensures r.sections[i] == c.sections[i]
    {
      if c.sections[i].id == sectionId {
        var s := c.sections[i];
        forall k | 0 <= k < |s.quizzes| ensures r.sections[i].quizzes[k] == s.quizzes[k] {
          if s.quizzes[k].id == quizId {
            var qs := s.quizzes[k].questions;
            var p := (x: Question) => x.id != question.id;
            FilterDropsAppended(qs, question, p);
          }
        }
        assert r.sections[i].quizzes == s.quizzes;
      }
    }
  }

  /** `updateQuizDescription`: each matching quiz takes the description verbatim, even "". */
  function UpdateQuizDescription(c: Course, sectionId: string, quizId: string, description: string): (r: Course)
    ensures OnlySectionChanged(c, r, sectionId)
    ensures forall i :: 0 <= i < |c.sections| && c.sections[i].id == sectionId ==>
              var s, t := c.sections[i], r.sections[i];
              OnlyQuizChanged(s, t, quizId) &&
              forall k :: 0 <= k < |s.quizzes| && s.quizzes[k].id == quizId ==>
                t.quizzes[k] == s.quizzes[k].(description := description)
    ensures NoSectionWithId(c, sectionId) ==> r == c
  {
    c.(sections := MapSection(c.sections, sectionId, (s: CourseSection) =>
      s.(quizzes := MapQuiz(s.quizzes, quizId, (q: Quiz) => q.(description := description)))))
  }

  /** Only the last of two description updates of the same quiz is visible. */
  lemma UpdateQuizDescriptionLastWins(c: Course, sectionId: string, quizId: string, d1: string, d2: string)
    ensures UpdateQuizDescription(UpdateQuizDescription(c, sectionId, quizId, d1), sectionId, quizId, d2)
         == UpdateQuizDescription(c, sectionId, quizId, d2)
  {
    var a := UpdateQuizDescription(UpdateQuizDescription(c, sectionId, quizId, d1), sectionId, quizId, d2);
    var b := UpdateQuizDescription(c, sectionId, quizId, d2);
    forall i | 0 <= i < |c.sections| ensures a.sections[i] == b.sections[i] {
      if c.sections[i].id == sectionId {
        assert a.sections[i].quizzes == b.sections[i].quizzes;
      }
    }
  }

  // ---------------------------------------------------------------------
  // Committing an edit
  // ---------------------------------------------------------------------

  /**
   * How the view model commits an edit of the selected course inside its
   * `try`: with no selected course nothing happens; otherwise the edited
   * course is written to Firestore and becomes the selection only once the
   * write succeeds.  A failed write (`failure`, the exception's message)
   * is only logged by the `catch`, so the selection stays as it was.
   */
  function CommitEdit(selected: Option<Course>, edit: Course -> Course, failure: Option<string>): (r: Option<Course>)
    ensures selected.None? ==> r.None?
    ensures failure.Some? ==> r == selected
    ensures selected.Some? && failure.None? ==> r == Some(edit(selected.value))
  {
    match selected
    case None => None
    case Some(c) => if failure.Some? then selected else Some(edit(c))
  }

  /** A failed write leaves no trace: retrying it successfully gives what a first success gives. */
  lemma FailedCommitLeavesNoTrace(selected: Option<Course>, edit: Course -> Course, message: string)
    ensures CommitEdit(CommitEdit(selected, edit, Some(message)), edit, None) == CommitEdit(selected, edit, None)
  {
  }

  /** Committing a lesson and then committing its deletion, under an id the section did not use, restores the selection. */
  lemma CommittedDeleteUndoesAdd(c: Course, sectionId: string, lesson: Lesson)
    requires forall i :: 0 <= i < |c.sections| && c.sections[i].id == sectionId ==> !HasLesson(c.sections[i], lesson.id)
    ensures CommitEdit(CommitEdit(Some(c), (x: Course) => AddLesson(x, sectionId, lesson), None),
                       (x: Course) => DeleteLesson(x, sectionId, lesson.id), None) == Some(c)
  {
    DeleteLessonAfterAdd(c, sectionId, lesson);
  }

  /** `deleteCourse` deletes the document first; a failed delete is logged and leaves every list as it was. */
  function CommitDeleteCourse(st: EditorState, courseId: string, failure: Option<string>): (r: EditorState)
    ensures failure.Some? ==> r == st
    ensures failure.None? ==> r == DeleteCourse(st, courseId)
  {
    if failure.Some? then st else DeleteCourse(st, courseId)
  }

  /** The two media edits have no `catch`: a failure escapes the coroutine and ends the app. */
  datatype MediaOutcome = Done(selected: Option<Course>) | Crash

  /**
   * `updateLessonMedia`: the upload comes first, before the selection is
   * read, so a failed upload crashes even with nothing selected; then, with
   * a selected course, a failed write crashes and a successful one selects
   * the course carrying the new url.
   */
  function CommitMediaUpdate(selected: Option<Course>, sectionId: string, lessonId: string, mediaType: string,
                             upload: Result<string>, failure: Option<string>): (r: MediaOutcome)
    ensures r.Crash? <==> upload.Failure? || (selected.Some? && failure.Some?)
    ensures r.Done? && selected.None? ==> r.selected.None?
    ensures r.Done? && selected.Some? ==>
              r.selected == Some(UpdateLessonMedia(selected.value, sectionId, lessonId, mediaType, upload.value))
  {
    match upload
    case Failure(_) => Crash
    case Success(url) =>
      match selected
      case None => Done(None)
      case Some(c) => if failure.Some? then Crash else Done(Some(UpdateLessonMedia(c, sectionId, lessonId, mediaType, url)))
  }

  /** `deleteLessonMedia`: with a selected course, a failed write crashes and a successful one selects the cleared course. */
  function CommitMediaDelete(selected: Option<Course>, sectionId: string, lessonId: string, mediaType: string,
                             failure: Option<string>): (r: MediaOutcome)
    ensures r.Crash? <==> selected.Some? && failure.Some?
    ensures r.Done? && selected.None? ==> r.selected.None?
    ensures r.Done? && selected.Some? ==> r.selected == Some(DeleteLessonMedia(selected.value, sectionId, lessonId, mediaType))
  {
    match selected
    case None => Done(None)
    case Some(c) => if failure.Some? then Crash else Done(Some(DeleteLessonMedia(c, sectionId, lessonId, mediaType)))
  }

  /**
   * The same failed write is harmless in the guarded edits and fatal in the
   * media ones: clearing media through the guarded commit keeps the
   * selection, while `deleteLessonMedia` crashes.
   */
  lemma FailedWriteGuardedOnlyByCatch(c: Course, sectionId: string, lessonId: string, mediaType: string, message: string)
    ensures CommitEdit(Some(c), (x: Course) => DeleteLessonMedia(x, sectionId, lessonId, mediaType), Some(message)) == Some(c)
    ensures CommitMediaDelete(Some(c), sectionId, lessonId, mediaType, Some(message)) == Crash
  {
  }

  /** When nothing fails, uploading the empty url and deleting the media select the same course. */
  lemma CommittedMediaDeleteIsEmptyUpload(selected: Option<Course>, sectionId: string, lessonId: string, mediaType: string)
    ensures CommitMediaDelete(selected, sectionId, lessonId, mediaType, None) ==
            CommitMediaUpdate(selected, sectionId, lessonId, mediaType, Success(""), None)
  {
    if selected.Some? {
      DeleteMediaIsEmptyUpdate(selected.value, sectionId, lessonId, mediaType);
    }
  }
}
