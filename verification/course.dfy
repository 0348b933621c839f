/**
 * The course tree shared by the Compose clients: a course holds ordered
 * sections, a section holds ordered lessons and quizzes, a quiz holds
 * ordered questions.  An enrollment records a student's integer progress
 * and the ordered list of lesson ids the student has completed.
 *
 * Kotlin `Float`/`Double` fields (rating, price) are `real` here; no
 * operation of the model computes with them.  Timestamps are plain
 * integers supplied by the caller.
 */
module CourseModel {
  import opened Wrappers
  import opened Seqs

  datatype Lesson = Lesson(
    id: string,
    title: string,
    description: string,
    duration: string,
    videoUrl: string,
    pdfUrl: string,
    imageUrl: string)

  datatype QuestionType = MultipleChoice | TrueFalse | ShortAnswer

  datatype Question = Question(
    id: string,
    text: string,
    kind: QuestionType,
    options: seq<string>,
    correctAnswer: string,
    points: int)

  /** `timeLimit` is in minutes; 0 means the quiz is not timed. */
  datatype Quiz = Quiz(
    id: string,
    title: string,
    description: string,
    questions: seq<Question>,
    passingScore: int,
    timeLimit: int,
    attemptsAllowed: int)

  datatype CourseSection = CourseSection(
    id: string,
    title: string,
    lessons: seq<Lesson>,
    quizzes: seq<Quiz>)

  datatype Course = Course(
    id: string,
    title: string,
    description: string,
    imageUrl: string,
    instructor: string,
    rating: real,
    duration: string,
    category: string,
    price: real,
    enrolledStudents: int,
    sections: seq<CourseSection>,
    createdAt: int)

  /** `completedLessons` is a list, not a set: nothing in the type forbids a repeated id. */
  datatype CourseEnrollment = CourseEnrollment(
    courseId: string,
    studentId: string,
    progress: int,
    enrolledDate: int,
    completedLessons: seq<string>)

  // ---------------------------------------------------------------------
  // Queries on the tree
  // ---------------------------------------------------------------------

  /** The section contains a lesson with this id (Kotlin `lessons.any { it.id == id }`). */
  predicate HasLesson(s: CourseSection, lessonId: string)
  {
    exists k :: 0 <= k < |s.lessons| && s.lessons[k].id == lessonId
  }

  function LessonIds(s: CourseSection): (r: seq<string>)
    ensures |r| == |s.lessons|
    ensures forall k :: 0 <= k < |r| ==> r[k] == s.lessons[k].id
  {
    Map(s.lessons, (l: Lesson) => l.id)
  }

  /** Number of lessons over all sections (Kotlin `sections.sumOf { it.lessons.size }`). */
  function TotalLessons(c: Course): nat
  {
    SumOfNonNegative(c.sections, (s: CourseSection) => |s.lessons|);
    SumOf(c.sections, (s: CourseSection) => |s.lessons|)
  }

  /** Every lesson id of the course, section by section. */
  function AllLessonIds(sections: seq<CourseSection>): seq<string>
    decreases |sections|
  {
    if |sections| == 0 then [] else LessonIds(sections[0]) + AllLessonIds(sections[1..])
  }

  /** The first section with this id. */
  function FindSection(sections: seq<CourseSection>, sectionId: string): Option<CourseSection>
  {
    Find(sections, (s: CourseSection) => s.id == sectionId)
  }

  /** The first section containing a lesson with this id. */
  function SectionOfLesson(sections: seq<CourseSection>, lessonId: string): Option<CourseSection>
  {
    Find(sections, (s: CourseSection) => HasLesson(s, lessonId))
  }

  /** The first quiz with this id. */
  function FindQuiz(quizzes: seq<Quiz>, quizId: string): Option<Quiz>
  {
    Find(quizzes, (q: Quiz) => q.id == quizId)
  }

  /** The lesson-id list holds exactly one entry per lesson of the course. */
  lemma {:induction false} AllLessonIdsLength(sections: seq<CourseSection>)
    ensures |AllLessonIds(sections)| == SumOf(sections, (s: CourseSection) => |s.lessons|)
    decreases |sections|
  {
    if |sections| > 0 {
      AllLessonIdsLength(sections[1..]);
    }
  }

  /** An id is among the course's lesson ids iff some section has a lesson with that id. */
  lemma {:induction false} AllLessonIdsMembership(sections: seq<CourseSection>, lessonId: string)
    ensures lessonId in AllLessonIds(sections) <==>
            exists i :: 0 <= i < |sections| && HasLesson(sections[i], lessonId)
    decreases |sections|
  {
    if |sections| > 0 {
      AllLessonIdsMembership(sections[1..], lessonId);
      var ids0 := LessonIds(sections[0]);
      assert lessonId in ids0 <==> HasLesson(sections[0], lessonId) by {
        if HasLesson(sections[0], lessonId) {
          var k :| 0 <= k < |sections[0].lessons| && sections[0].lessons[k].id == lessonId;
          assert ids0[k] == lessonId;
        }
      }
      if exists i :: 0 <= i < |sections[1..]| && HasLesson(sections[1..][i], lessonId) {
        var i :| 0 <= i < |sections[1..]| && HasLesson(sections[1..][i], lessonId);
        assert sections[1..][i] == sections[i + 1];
      }
      if exists i :: 0 <= i < |sections| && HasLesson(sections[i], lessonId) {
        var i :| 0 <= i < |sections| && HasLesson(sections[i], lessonId);
        if i > 0 {
          assert sections[1..][i - 1] == sections[i];
        }
      }
    }
  }

  // ---------------------------------------------------------------------
  // Constructors with the Kotlin default arguments
  // ---------------------------------------------------------------------

  /**
   * A course as `Course(...)` builds it when sections, rating and
   * enrolment count are left at their defaults.
   */
  function NewCourse(id: string, title: string, description: string, imageUrl: string,
                     instructor: string, duration: string, category: string, price: real,
                     createdAt: int): (r: Course)
    ensures r.id == id && r.title == title && r.instructor == instructor && r.category == category
    ensures r.enrolledStudents == 0 && r.rating == 0.0
    ensures TotalLessons(r) == 0 && AllLessonIds(r.sections) == []
    ensures forall sectionId :: FindSection(r.sections, sectionId).None?
  {
    Course(id, title, description, imageUrl, instructor, 0.0, duration, category, price, 0, [], createdAt)
  }

  /** A section built with only an id and a title. */
  function NewSection(id: string, title: string): (r: CourseSection)
    ensures r.id == id && r.title == title
    ensures forall lessonId :: !HasLesson(r, lessonId)
    ensures forall quizId :: FindQuiz(r.quizzes, quizId).None?
  {
    CourseSection(id, title, [], [])
  }

  /** A fresh enrollment: no completed lesson and progress 0. */
  function NewEnrollment(courseId: string, studentId: string, enrolledDate: int): (r: CourseEnrollment)
    ensures r.courseId == courseId && r.studentId == studentId && r.enrolledDate == enrolledDate
    ensures r.progress == 0
    ensures forall lessonId :: lessonId !in r.completedLessons
  {
    CourseEnrollment(courseId, studentId, 0, enrolledDate, [])
  }

  /** A quiz with the default pass mark 70, one attempt, no time limit and no questions. */
  function NewQuiz(id: string, title: string, description: string): (r: Quiz)
    ensures r.id == id && r.title == title && r.description == description
    ensures r.passingScore == 70 && r.attemptsAllowed == 1 && r.timeLimit == 0
    ensures |r.questions| == 0
  {
    Quiz(id, title, description, [], 70, 0, 1)
  }

  /** A question with the default kind, no options and a weight of one point. */
  function NewQuestion(id: string, text: string, correctAnswer: string): (r: Question)
    ensures r.id == id && r.text == text && r.correctAnswer == correctAnswer
    ensures r.kind == MultipleChoice && |r.options| == 0 && r.points == 1
  {
    Question(id, text, MultipleChoice, [], correctAnswer, 1)
  }

  /** A lesson with only id and title set; every other field is "". */
  function NewLesson(id: string, title: string): (r: Lesson)
    ensures r.id == id && r.title == title
    ensures r.videoUrl == "" && r.pdfUrl == "" && r.imageUrl == ""
  {
    Lesson(id, title, "", "", "", "", "")
  }

  /** The question kinds, in declaration order. */
  const QuestionTypes: seq<QuestionType> := [MultipleChoice, TrueFalse, ShortAnswer]

  /** There are exactly three question kinds and the list above names each once. */
  lemma QuestionTypesComplete()
    ensures |QuestionTypes| == 3 && NoDup(QuestionTypes)
    ensures forall t: QuestionType :: t in QuestionTypes
  {
    forall t: QuestionType ensures t in QuestionTypes {
      match t
      case MultipleChoice => assert QuestionTypes[0] == t;
      case TrueFalse => assert QuestionTypes[1] == t;
      case ShortAnswer => assert QuestionTypes[2] == t;
    }
  }
}
