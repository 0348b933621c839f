/**
 * The lesson screen's position in a course: a section id and a lesson
 * index.  Which lesson is shown, whether there is a next lesson or a next
 * section, where Next and Previous lead, and the "Mark as Completed"
 * button.  The lesson details screen's lookup by lesson id sits here too.
 */
module LessonNav {
  import opened Wrappers
  import opened Seqs
  import opened CourseModel

  /** A place the lesson screen can show: the route's section id and lesson index. */
  datatype Position = Position(sectionId: string, lessonIndex: int)

  /** The section the screen works on: the first with the route's id. */
  function CurrentSection(course: Option<Course>, sectionId: string): (r: Option<CourseSection>)
    ensures r.Some? ==> course.Some? && r.value.id == sectionId && r.value in course.value.sections
    ensures r.None? && course.Some? ==> forall k :: 0 <= k < |course.value.sections| ==> course.value.sections[k].id != sectionId
  {
    match course
    case None => None
    case Some(c) => FindSection(c.sections, sectionId)
  }

  /** Kotlin `getOrNull`: the element at `i`, none outside the list. */
  function GetOrNone<T>(s: seq<T>, i: int): (r: Option<T>)
    ensures r.Some? <==> 0 <= i < |s|
    ensures r.Some? ==> r.value == s[i]
  {
    if 0 <= i < |s| then Some(s[i]) else None
  }

  /** The lesson shown: the one at the index in the current section, none outside the range. */
  function CurrentLesson(course: Option<Course>, p: Position): (r: Option<Lesson>)
    ensures r.Some? <==> (CurrentSection(course, p.sectionId).Some? &&
                          0 <= p.lessonIndex < |CurrentSection(course, p.sectionId).value.lessons|)
  {
    match CurrentSection(course, p.sectionId)
    case None => None
    case Some(s) => GetOrNone(s.lessons, p.lessonIndex)
  }

  /**
   * Kotlin `sections.indexOf(currentSection)`: the first section equal to
   * the current one, -1 when there is no current section.
   */
  function SectionIndex(c: Course, current: Option<CourseSection>): (r: int)
    ensures -1 <= r < |c.sections|
  {
    match current
    case None => -1
    case Some(s) => IndexWhere(c.sections, (x: CourseSection) => x == s)
  }

  /** The index of the current section is the index of the first section with the route's id. */
  lemma SectionIndexById(c: Course, sectionId: string)
    ensures SectionIndex(c, FindSection(c.sections, sectionId)) ==
            IndexWhere(c.sections, (x: CourseSection) => x.id == sectionId)
  {
    var byId := (x: CourseSection) => x.id == sectionId;
    var k := IndexWhere(c.sections, byId);
    if k >= 0 {
      var s := c.sections[k];
      var k' := IndexWhere(c.sections, (x: CourseSection) => x == s);
      assert k' <= k;
      assert c.sections[k'] == s;
    }
  }

  predicate HasNextLesson(course: Option<Course>, p: Position)
  {
    CurrentSection(course, p.sectionId).Some? && |CurrentSection(course, p.sectionId).value.lessons| > p.lessonIndex + 1
  }

  /** `hasNextSection`: the current section's index is below the last index (false without a course). */
  predicate HasNextSection(course: Option<Course>, p: Position)
  {
    course.Some? && SectionIndex(course.value, CurrentSection(course, p.sectionId)) < |course.value.sections| - 1
  }

  /** A route to a section the course does not contain still reports a next section whenever the course has one. */
  lemma UnknownSectionHasNext(c: Course, p: Position)
    requires forall k :: 0 <= k < |c.sections| ==> c.sections[k].id != p.sectionId
    ensures HasNextSection(Some(c), p) <==> |c.sections| > 0
  {
  }

  /** The Next button is enabled when there is a next lesson or a next section. */
  predicate NextEnabled(course: Option<Course>, p: Position)
  {
    HasNextLesson(course, p) || HasNextSection(course, p)
  }

  /**
   * Where Next leads: the following lesson of the same section, else lesson
   * 0 of the section after the current one (the first section when the
   * current one is unknown).
   */
  function Next(course: Option<Course>, p: Position): (r: Option<Position>)
    ensures HasNextLesson(course, p) ==> r == Some(Position(p.sectionId, p.lessonIndex + 1))
    ensures !HasNextLesson(course, p) && HasNextSection(course, p) ==>
              var i := SectionIndex(course.value, CurrentSection(course, p.sectionId)) + 1;
              0 <= i < |course.value.sections| && r == Some(Position(course.value.sections[i].id, 0))
    ensures !NextEnabled(course, p) ==> r.None?
  {
    if HasNextLesson(course, p) then Some(Position(p.sectionId, p.lessonIndex + 1))
    else if HasNextSection(course, p) then
      var i := SectionIndex(course.value, CurrentSection(course, p.sectionId)) + 1;
      match GetOrNone(course.value.sections, i)
      case None => None
      case Some(s) => Some(Position(s.id, 0))
    else None
  }

  /** Next leads somewhere exactly when it is enabled. */
  lemma NextEnabledIffTarget(course: Option<Course>, p: Position)
    ensures NextEnabled(course, p) <==> Next(course, p).Some?
  {
  }

  /** Moving to the next lesson of the same section lands on a lesson that exists. */
  lemma NextInSectionShowsLesson(course: Option<Course>, p: Position)
    requires HasNextLesson(course, p) && p.lessonIndex >= 0
    ensures CurrentLesson(course, Next(course, p).value).Some?
  {
  }

  /** The Previous button is enabled exactly when the index is positive. */
  predicate PreviousEnabled(p: Position)
  {
    p.lessonIndex > 0
  }

  /** Where Previous leads: one lesson back in the same section; nowhere at index 0. */
  function Previous(p: Position): (r: Option<Position>)
    ensures r.Some? <==> PreviousEnabled(p)
    ensures r.Some? ==> r.value.sectionId == p.sectionId && r.value.lessonIndex == p.lessonIndex - 1
  {
    if p.lessonIndex > 0 then Some(Position(p.sectionId, p.lessonIndex - 1)) else None
  }

  /** Inside one section, Previous undoes Next and Next undoes Previous. */
  lemma PreviousNextInverse(course: Option<Course>, p: Position)
    ensures HasNextLesson(course, p) && p.lessonIndex >= 0 ==> Previous(Next(course, p).value) == Some(p)
    ensures PreviousEnabled(p) && CurrentLesson(course, p).Some? ==> Next(course, Previous(p).value) == Some(p)
  {
  }

  /**
   * The "Mark as Completed" button: `completed` is the screen's flag and
   * `request` is the (user, lesson) pair passed to the progress update.
   */
  datatype MarkState = MarkState(completed: bool, request: Option<(string, string)>)

  /**
   * A click: ignored while the flag is set (the button is disabled); with a
   * lesson shown and a user signed in it sends the progress update and sets
   * the flag; otherwise nothing happens.
   */
  function ClickMarkCompleted(completed: bool, lesson: Option<Lesson>, userId: Option<string>): (r: MarkState)
    ensures completed ==> r == MarkState(true, None)
    ensures !completed ==> (r.completed <==> lesson.Some? && userId.Some?)
    ensures r.request.Some? <==> !completed && lesson.Some? && userId.Some?
    ensures r.request.Some? ==> r.request.value == (userId.value, lesson.value.id)
  {
    if completed then MarkState(true, None)
    else if lesson.Some? && userId.Some? then MarkState(true, Some((userId.value, lesson.value.id)))
    else MarkState(false, None)
  }

  /** A second click never sends a second update. */
  lemma MarkCompletedOnce(lesson: Option<Lesson>, userId: Option<string>)
    ensures ClickMarkCompleted(ClickMarkCompleted(false, lesson, userId).completed, lesson, userId).request.Some? ==>
            ClickMarkCompleted(false, lesson, userId).request.None?
  {
  }

  /** The lesson details screen's lookup: the first lesson with the id in the first section with the id. */
  function LessonById(course: Option<Course>, sectionId: string, lessonId: string): (r: Option<Lesson>)
    ensures r.Some? ==> CurrentSection(course, sectionId).Some? && r.value.id == lessonId &&
                        r.value in CurrentSection(course, sectionId).value.lessons
    ensures r.None? && CurrentSection(course, sectionId).Some? ==>
              !HasLesson(CurrentSection(course, sectionId).value, lessonId)
  {
    match CurrentSection(course, sectionId)
    case None => None
    case Some(s) => Find(s.lessons, (l: Lesson) => l.id == lessonId)
  }

  /**
   * With distinct lesson ids in the section, looking a lesson up by its id
   * finds the same lesson the lesson screen shows at its index.
   */
  lemma LookupsAgree(course: Option<Course>, p: Position)
    requires CurrentLesson(course, p).Some?
    requires NoDup(LessonIds(CurrentSection(course, p.sectionId).value))
    ensures LessonById(course, p.sectionId, CurrentLesson(course, p).value.id) == CurrentLesson(course, p)
  {
    var s := CurrentSection(course, p.sectionId).value;
    var l := CurrentLesson(course, p).value;
    var pr := (x: Lesson) => x.id == l.id;
    var k := IndexWhere(s.lessons, pr);
    assert pr(s.lessons[p.lessonIndex]);
    assert 0 <= k <= p.lessonIndex;
    assert LessonIds(s)[k] == LessonIds(s)[p.lessonIndex];
  }
}
