/**
 * The navigation routes of the Compose client: every screen's route
 * string and the builders that put argument values into a parameterised
 * route.  A parameterised route is a prefix followed by "/{name}" per
 * parameter; a builder puts "/" and the value in place of each of them.
 */
module Routes {
  import opened Seqs
  import opened Text

  /** A route with parameters: a prefix and the parameter names, in order. */
  datatype Template = Template(prefix: string, params: seq<string>)

  /** "/{p1}/{p2}..." for the parameter names. */
  function Placeholders(params: seq<string>): string
    decreases |params|
  {
    if |params| == 0 then "" else "/{" + params[0] + "}" + Placeholders(params[1..])
  }

  /** The route string a template is registered under. */
  function Pattern(t: Template): string
  {
    t.prefix + Placeholders(t.params)
  }

  /** "/v1/v2..." for the values. */
  function Slashed(values: seq<string>): string
    decreases |values|
  {
    if |values| == 0 then "" else "/" + values[0] + Slashed(values[1..])
  }

  /** The template with each placeholder replaced by its value. */
  function Fill(t: Template, values: seq<string>): string
    requires |values| == |t.params|
  {
    t.prefix + Slashed(values)
  }

  lemma SlashedOne(v: string)
    ensures Slashed([v]) == "/" + v
  {
    assert [v][1..] == [];
  }

  lemma SlashedThree(a: string, b: string, c: string)
    ensures Slashed([a, b, c]) == "/" + a + "/" + b + "/" + c
  {
    assert [a, b, c][1..] == [b, c];
    assert [b, c][1..] == [c];
    SlashedOne(c);
  }

  lemma PlaceholdersOne(p: string)
    ensures Placeholders([p]) == "/{" + p + "}"
  {
    assert [p][1..] == [];
  }

  lemma PlaceholdersThree(p: string, q: string, r: string)
    ensures Placeholders([p, q, r]) == "/{" + p + "}" + "/{" + q + "}" + "/{" + r + "}"
  {
    assert [p, q, r][1..] == [q, r];
    assert [q, r][1..] == [r];
    PlaceholdersOne(r);
  }

  // ---------------------------------------------------------------------
  // The routes
  // ---------------------------------------------------------------------

  const Welcome := "welcome"
  const Login := "login"
  const SignUp := "signup"
  const Home := "home"
  const MyCourses := "my_courses"
  const Bookmarks := "bookmarks"
  const Assignments := "assignments"
  const Quizzes := "quizzes"
  const Schedule := "schedule"
  const Discussions := "discussions"
  const Progress := "progress"
  const Settings := "settings"
  const CourseDetail := "course_detail" + "/{courseId}"
  const Lesson := "lesson" + "/{courseId}" + "/{sectionId}" + "/{lessonIndex}"
  const InstructorDashboard := "instructor_dashboard"
  const CourseEditor := "course_editor" + "/{courseId}"
  const LessonDetails := "lesson_details" + "/{courseId}" + "/{sectionId}" + "/{lessonId}"
  const QuizEditor := "quiz_editor" + "/{courseId}" + "/{sectionId}" + "/{quizId}"
  const QuizTaking := "quiz_taking" + "/{courseId}" + "/{sectionId}" + "/{quizId}"
  const Certificate := "certificate" + "/{certificateId}"
  const AddCreditCard := "add_credit_card"
  const CreditCards := "credit_cards"
  const Profile := "profile"
  const Downloads := "downloads"
  const Instructor := "instructor"
  const AddCourse := "add_course"

  /** The routes without parameters, in declaration order. */
  const PlainRoutes: seq<string> := [
    Welcome, Login, SignUp, Home, MyCourses, Bookmarks, Assignments, Quizzes, Schedule, Discussions, Progress,
    Settings, InstructorDashboard, AddCreditCard, CreditCards, Profile, Downloads, Instructor, AddCourse]

  /** The parameterised routes, in declaration order, each written as its segments. */
  const ParamRoutes: seq<string> := [CourseDetail, Lesson, CourseEditor, LessonDetails, QuizEditor, QuizTaking, Certificate]

  /** Every screen's route. */
  const AllRoutes: seq<string> := PlainRoutes + ParamRoutes

  const CourseDetailTemplate := Template("course_detail", ["courseId"])
  const LessonTemplate := Template("lesson", ["courseId", "sectionId", "lessonIndex"])
  const CourseEditorTemplate := Template("course_editor", ["courseId"])
  const LessonDetailsTemplate := Template("lesson_details", ["courseId", "sectionId", "lessonId"])
  const QuizEditorTemplate := Template("quiz_editor", ["courseId", "sectionId", "quizId"])
  const QuizTakingTemplate := Template("quiz_taking", ["courseId", "sectionId", "quizId"])
  const CertificateTemplate := Template("certificate", ["certificateId"])

  /** Each single-parameter route is its template's pattern. */
  lemma SingleTemplatesMatchRoutes()
    ensures Pattern(CourseDetailTemplate) == CourseDetail
    ensures Pattern(CourseEditorTemplate) == CourseEditor
    ensures Pattern(CertificateTemplate) == Certificate
  {
    PlaceholdersOne("courseId");
    PlaceholdersOne("certificateId");
  }

  /** Each three-parameter route is its template's pattern. */
  lemma LessonTemplateMatches()
    ensures Pattern(LessonTemplate) == Lesson
  {
    TripleMatches("lesson", "lessonIndex");
    assert "/{" + "lessonIndex" + "}" == "/{lessonIndex}";
  }

  lemma LessonDetailsTemplateMatches()
    ensures Pattern(LessonDetailsTemplate) == LessonDetails
  {
    TripleMatches("lesson_details", "lessonId");
    assert "/{" + "lessonId" + "}" == "/{lessonId}";
  }

  lemma QuizEditorTemplateMatches()
    ensures Pattern(QuizEditorTemplate) == QuizEditor
  {
    TripleMatches("quiz_editor", "quizId");
    assert "/{" + "quizId" + "}" == "/{quizId}";
  }

  lemma QuizTakingTemplateMatches()
    ensures Pattern(QuizTakingTemplate) == QuizTaking
  {
    TripleMatches("quiz_taking", "quizId");
    assert "/{" + "quizId" + "}" == "/{quizId}";
  }

  /** The pattern of a route whose parameters are a course id, a section id and one more. */
  lemma TripleMatches(prefix: string, last: string)
    ensures Pattern(Template(prefix, ["courseId", "sectionId", last])) ==
            prefix + "/{courseId}" + "/{sectionId}" + "/{" + last + "}"
  {
    PlaceholdersThree("courseId", "sectionId", last);
    assert "/{" + "courseId" + "}" == "/{courseId}";
    assert "/{" + "sectionId" + "}" == "/{sectionId}";
  }

  /** The lengths of the routes without parameters. */
  const PlainLengths: seq<int> := [7, 5, 6, 4, 10, 9, 11, 7, 8, 11, 8, 8, 20, 15, 12, 7, 9, 10, 10]

  lemma PlainRouteLengths()
    ensures |PlainLengths| == |PlainRoutes|
    ensures forall k :: 0 <= k < |PlainRoutes| ==> |PlainRoutes[k]| == PlainLengths[k]
  {
  }

  /** The routes without parameters are distinct, and none is longer than twenty characters. */
  lemma PlainRoutesDistinct()
    ensures NoDup(PlainRoutes) && forall k :: 0 <= k < |PlainRoutes| ==> |PlainRoutes[k]| <= 20
  {
    PlainRouteLengths();
    forall i, j | 0 <= i < j < |PlainRoutes| ensures PlainRoutes[i] != PlainRoutes[j] {
      if PlainLengths[i] == PlainLengths[j] {
        assert PlainRoutes[i][0] != PlainRoutes[j][0] || PlainRoutes[i][1] != PlainRoutes[j][1];
      }
    }
  }

  /** The parameterised routes are distinct, and each is at least twenty-four characters long. */
  lemma ParamRoutesDistinct()
    ensures NoDup(ParamRoutes) && forall k :: 0 <= k < |ParamRoutes| ==> |ParamRoutes[k]| >= 24
  {
    assert CourseDetail[7] == 'd' && CourseEditor[7] == 'e';
    assert Lesson[0] == 'l' && QuizEditor[5] == 'e' && QuizTaking[5] == 't';
  }

  /** No two screens share a route. */
  lemma RoutesDistinct()
    ensures |AllRoutes| == 26 && NoDup(AllRoutes)
  {
    PlainRoutesDistinct();
    ParamRoutesDistinct();
    NoDupConcat(PlainRoutes, ParamRoutes);
  }

  // ---------------------------------------------------------------------
  // The builders
  // ---------------------------------------------------------------------

  function CourseDetailRoute(courseId: string): (r: string)
    ensures r == Fill(CourseDetailTemplate, [courseId])
  {
    SlashedOne(courseId);
    "course_detail/" + courseId
  }

  function CourseEditorRoute(courseId: string): (r: string)
    ensures r == Fill(CourseEditorTemplate, [courseId])
  {
    SlashedOne(courseId);
    "course_editor/" + courseId
  }

  function CertificateRoute(certificateId: string): (r: string)
    ensures r == Fill(CertificateTemplate, [certificateId])
  {
    SlashedOne(certificateId);
    "certificate/" + certificateId
  }

  /** The lesson index is written in decimal. */
  function LessonRoute(courseId: string, sectionId: string, lessonIndex: int): (r: string)
    ensures r == Fill(LessonTemplate, [courseId, sectionId, IntToString(lessonIndex)])
  {
    SlashedThree(courseId, sectionId, IntToString(lessonIndex));
    "lesson/" + courseId + "/" + sectionId + "/" + IntToString(lessonIndex)
  }

  function LessonDetailsRoute(courseId: string, sectionId: string, lessonId: string): (r: string)
    ensures r == Fill(LessonDetailsTemplate, [courseId, sectionId, lessonId])
  {
    SlashedThree(courseId, sectionId, lessonId);
    "lesson_details/" + courseId + "/" + sectionId + "/" + lessonId
  }

  function QuizEditorRoute(courseId: string, sectionId: string, quizId: string): (r: string)
    ensures r == Fill(QuizEditorTemplate, [courseId, sectionId, quizId])
  {
    SlashedThree(courseId, sectionId, quizId);
    "quiz_editor/" + courseId + "/" + sectionId + "/" + quizId
  }

  function QuizTakingRoute(courseId: string, sectionId: string, quizId: string): (r: string)
    ensures r == Fill(QuizTakingTemplate, [courseId, sectionId, quizId])
  {
    SlashedThree(courseId, sectionId, quizId);
    "quiz_taking/" + courseId + "/" + sectionId + "/" + quizId
  }

  // ---------------------------------------------------------------------
  // Reading the values back
  // ---------------------------------------------------------------------

  predicate NoSlash(s: string)
  {
    forall i :: 0 <= i < |s| ==> s[i] != '/'
  }

  /** A common prefix can be dropped from both sides of an equation. */
  lemma PrefixCancel(p: string, a: string, b: string)
    requires p + a == p + b
    ensures a == b
  {
    assert a == (p + a)[|p|..];
    assert b == (p + b)[|p|..];
  }

  /** Splitting at the first '/': a value without '/' before it is determined. */
  lemma SlashJoinInjective(a: string, b: string, x: string, y: string)
    requires NoSlash(a) && NoSlash(x)
    requires a + "/" + b == x + "/" + y
    ensures a == x && b == y
  {
    FirstSlashAt(a, b);
    FirstSlashAt(x, y);
    var s := a + "/" + b;
    assert a == s[..|a|] == x;
    PrefixCancel(a + "/", b, y);
  }

  function IsSlash(c: char): bool
  {
    c == '/'
  }

  /** In "a/b" with no '/' in `a`, the first '/' is right after `a`. */
  lemma FirstSlashAt(a: string, b: string)
    requires NoSlash(a)
    ensures IndexWhere(a + "/" + b, IsSlash) == |a|
  {
    var s := a + "/" + b;
    assert IsSlash(s[|a|]);
    forall k | 0 <= k < |a| ensures !IsSlash(s[k]) {
      assert s[k] == a[k];
    }
  }

  /** Different ids give different single-argument routes. */
  lemma SingleArgumentInjective(a: string, b: string)
    ensures CourseDetailRoute(a) == CourseDetailRoute(b) ==> a == b
    ensures CourseEditorRoute(a) == CourseEditorRoute(b) ==> a == b
    ensures CertificateRoute(a) == CertificateRoute(b) ==> a == b
  {
    if CourseDetailRoute(a) == CourseDetailRoute(b) {
      PrefixCancel("course_detail/", a, b);
    }
    if CourseEditorRoute(a) == CourseEditorRoute(b) {
      PrefixCancel("course_editor/", a, b);
    }
    if CertificateRoute(a) == CertificateRoute(b) {
      PrefixCancel("certificate/", a, b);
    }
  }

  /** The part after a fixed prefix of "prefix/c/s/x". */
  lemma ThreeValuesInjective(p: string, c1: string, s1: string, x1: string, c2: string, s2: string, x2: string)
    requires NoSlash(c1) && NoSlash(s1) && NoSlash(c2) && NoSlash(s2)
    requires p + c1 + "/" + s1 + "/" + x1 == p + c2 + "/" + s2 + "/" + x2
    ensures c1 == c2 && s1 == s2 && x1 == x2
  {
    assert p + c1 + "/" + s1 + "/" + x1 == p + (c1 + "/" + (s1 + "/" + x1));
    assert p + c2 + "/" + s2 + "/" + x2 == p + (c2 + "/" + (s2 + "/" + x2));
    PrefixCancel(p, c1 + "/" + (s1 + "/" + x1), c2 + "/" + (s2 + "/" + x2));
    SlashJoinInjective(c1, s1 + "/" + x1, c2, s2 + "/" + x2);
    SlashJoinInjective(s1, x1, s2, x2);
  }

  /** With course and section ids free of '/', the three-argument routes determine their values. */
  lemma MultiArgumentInjective(c1: string, s1: string, x1: string, c2: string, s2: string, x2: string)
    requires NoSlash(c1) && NoSlash(s1) && NoSlash(c2) && NoSlash(s2)
    ensures LessonDetailsRoute(c1, s1, x1) == LessonDetailsRoute(c2, s2, x2) ==> c1 == c2 && s1 == s2 && x1 == x2
    ensures QuizEditorRoute(c1, s1, x1) == QuizEditorRoute(c2, s2, x2) ==> c1 == c2 && s1 == s2 && x1 == x2
    ensures QuizTakingRoute(c1, s1, x1) == QuizTakingRoute(c2, s2, x2) ==> c1 == c2 && s1 == s2 && x1 == x2
  {
    if LessonDetailsRoute(c1, s1, x1) == LessonDetailsRoute(c2, s2, x2) {
      ThreeValuesInjective("lesson_details/", c1, s1, x1, c2, s2, x2);
    }
    if QuizEditorRoute(c1, s1, x1) == QuizEditorRoute(c2, s2, x2) {
      ThreeValuesInjective("quiz_editor/", c1, s1, x1, c2, s2, x2);
    }
    if QuizTakingRoute(c1, s1, x1) == QuizTakingRoute(c2, s2, x2) {
      ThreeValuesInjective("quiz_taking/", c1, s1, x1, c2, s2, x2);
    }
  }

  /** The lesson route determines its ids and its index. */
  lemma LessonRouteInjective(c1: string, s1: string, i1: int, c2: string, s2: string, i2: int)
    requires NoSlash(c1) && NoSlash(s1) && NoSlash(c2) && NoSlash(s2)
    requires LessonRoute(c1, s1, i1) == LessonRoute(c2, s2, i2)
    ensures c1 == c2 && s1 == s2 && i1 == i2
  {
    ThreeValuesInjective("lesson/", c1, s1, IntToString(i1), c2, s2, IntToString(i2));
    IntToStringInjective(i1, i2);
  }

  /** A '/' inside an id makes two different argument lists build the same route. */
  lemma SlashInIdCollides()
    ensures LessonDetailsRoute("a/b", "c", "d") == LessonDetailsRoute("a", "b/c", "d")
    ensures QuizTakingRoute("a/b", "c", "d") == QuizTakingRoute("a", "b/c", "d")
  {
  }
}
