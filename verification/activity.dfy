/**
 * The user activity tracker: the preferences it keeps about the last
 * lesson, quiz and activity time, and the three notices it derives from
 * them (re-engagement, module complete, resume course).  The clock reading
 * and the fetched course are parameters.
 */
module ActivityTracker {
  import opened Wrappers
  import opened Seqs
  import opened CourseModel
  import QuizTaking

  /** The "user_activity" preferences; a missing key is `None`. */
  datatype Prefs = Prefs(lastCourseId: Option<string>, lastLessonId: Option<string>, lastQuizId: Option<string>,
                         lastActivityTime: Option<int>)

  const EmptyPrefs := Prefs(None, None, None, None)

  /** Milliseconds in a day. */
  const DayMillis := 86_400_000

  /** Whole days before the re-engagement notice is sent. */
  const InactiveDays := 3

  /** A completed lesson records the course, the lesson and the time; the last quiz is kept. */
  function TrackLessonCompletion(p: Prefs, courseId: string, lessonId: string, now: int): (r: Prefs)
    ensures r.lastCourseId == Some(courseId) && r.lastLessonId == Some(lessonId) && r.lastActivityTime == Some(now)
    ensures r.lastQuizId == p.lastQuizId
  {
    p.(lastCourseId := Some(courseId), lastLessonId := Some(lessonId), lastActivityTime := Some(now))
  }

  /** A completed quiz records only the quiz and the time; the last course and lesson are kept. */
  function TrackQuizCompletion(p: Prefs, quizId: string, now: int): (r: Prefs)
    ensures r.lastQuizId == Some(quizId) && r.lastActivityTime == Some(now)
    ensures r.lastCourseId == p.lastCourseId && r.lastLessonId == p.lastLessonId
  {
    p.(lastQuizId := Some(quizId), lastActivityTime := Some(now))
  }

  /** Lesson and quiz completions touch different keys: either order keeps both, and the later time wins. */
  lemma CompletionsCommute(p: Prefs, courseId: string, lessonId: string, quizId: string, t1: int, t2: int)
    ensures TrackQuizCompletion(TrackLessonCompletion(p, courseId, lessonId, t1), quizId, t2) ==
            TrackLessonCompletion(TrackQuizCompletion(p, quizId, t1), courseId, lessonId, t2)
  {
  }

  /** `TimeUnit.MILLISECONDS.toDays`: whole days, truncated towards zero. */
  function DaysSince(last: int, now: int): (r: int)
    ensures now >= last ==> r * DayMillis <= now - last < (r + 1) * DayMillis
    ensures now < last ==> r <= 0 && (r - 1) * DayMillis < now - last <= r * DayMillis
  {
    QuizTaking.TruncDiv(now - last, DayMillis)
  }

  /** The re-engagement notice: sent when at least three whole days passed; no record counts as time 0. */
  predicate SendsReengagement(p: Prefs, now: int)
  {
    DaysSince(p.lastActivityTime.GetOr(0), now) >= InactiveDays
  }

  /** The notice is sent exactly when 259 200 000 ms or more have passed since the last activity. */
  lemma ReengagementIffThreeDays(p: Prefs, now: int)
    ensures SendsReengagement(p, now) <==> now - p.lastActivityTime.GetOr(0) >= InactiveDays * DayMillis
  {
    var last := p.lastActivityTime.GetOr(0);
    var d := DaysSince(last, now);
    if now >= last {
      if d >= InactiveDays {
        assert d * DayMillis >= InactiveDays * DayMillis;
      } else {
        assert (d + 1) * DayMillis <= InactiveDays * DayMillis;
      }
    }
  }

  /** Right after any completion the notice is not sent. */
  lemma NoReengagementRightAfterActivity(p: Prefs, courseId: string, lessonId: string, now: int)
    ensures !SendsReengagement(TrackLessonCompletion(p, courseId, lessonId, now), now)
  {
    ReengagementIffThreeDays(TrackLessonCompletion(p, courseId, lessonId, now), now);
  }

  /** With nothing recorded, the notice goes out once the clock is past three days after the epoch. */
  lemma NoActivityCountsFromEpoch(now: int)
    ensures SendsReengagement(EmptyPrefs, now) <==> now >= 259_200_000
  {
    ReengagementIffThreeDays(EmptyPrefs, now);
  }

  /**
   * The module-complete notice: the title of the first section containing
   * the lesson, when the lesson is that section's last one.
   */
  function ModuleCompleted(course: Option<Course>, lessonId: string): (r: Option<string>)
    ensures r.Some? <==> course.Some? && SectionOfLesson(course.value.sections, lessonId).Some? &&
                         var s := SectionOfLesson(course.value.sections, lessonId).value;
                         |s.lessons| > 0 && s.lessons[|s.lessons| - 1].id == lessonId
    ensures r.Some? ==> r.value == SectionOfLesson(course.value.sections, lessonId).value.title
  {
    match course
    case None => None
    case Some(c) =>
      match SectionOfLesson(c.sections, lessonId)
      case None => None
      case Some(s) =>
        assert HasLesson(s, lessonId);
        if s.lessons[|s.lessons| - 1].id == lessonId then Some(s.title) else None
  }

  /**
   * With lesson ids unique across the course, completing the last lesson
   * of a section announces that section, and completing any other lesson
   * announces nothing.
   */
  lemma ModuleCompletedIffLast(c: Course, i: int, k: int)
    requires NoDup(AllLessonIds(c.sections))
    requires 0 <= i < |c.sections| && 0 <= k < |c.sections[i].lessons|
    ensures var s := c.sections[i];
            ModuleCompleted(Some(c), s.lessons[k].id) == if k == |s.lessons| - 1 then Some(s.title) else None
  {
    var s := c.sections[i];
    var id := s.lessons[k].id;
    OnlySectionWithLesson(c.sections, i, k);
    var j := IndexWhere(c.sections, (x: CourseSection) => HasLesson(x, id));
    assert HasLesson(s, id);
    assert j == i;
    var m :| 0 <= m < |s.lessons| && s.lessons[m].id == id;
    assert LessonIds(s)[m] == LessonIds(s)[k];
    UniqueWithinSection(c.sections, i);
    if k != |s.lessons| - 1 {
      assert LessonIds(s)[|s.lessons| - 1] != LessonIds(s)[k];
    }
  }

  /** With unique lesson ids, no other section holds a lesson of section `i`. */
  lemma {:induction false} OnlySectionWithLesson(sections: seq<CourseSection>, i: int, k: int)
    requires NoDup(AllLessonIds(sections))
    requires 0 <= i < |sections| && 0 <= k < |sections[i].lessons|
    ensures forall j :: 0 <= j < |sections| && j != i ==> !HasLesson(sections[j], sections[i].lessons[k].id)
    decreases |sections|
  {
    var id := sections[i].lessons[k].id;
    var ids := AllLessonIds(sections);
    var head := LessonIds(sections[0]);
    var tail := AllLessonIds(sections[1..]);
    assert ids == head + tail;
    NoDupSplit(head, tail);
    if i == 0 {
      assert head[k] == id;
      forall j | 0 < j < |sections| ensures !HasLesson(sections[j], id) {
        AllLessonIdsMembership(sections[1..], id);
        assert id !in tail;
        assert sections[1..][j - 1] == sections[j];
      }
    } else {
      assert sections[1..][i - 1] == sections[i];
      OnlySectionWithLesson(sections[1..], i - 1, k);
      AllLessonIdsMembership(sections[1..], id);
      assert HasLesson(sections[1..][i - 1], id);
      assert id in tail;
      forall j | 0 <= j < |sections| && j != i ensures !HasLesson(sections[j], id) {
        if j == 0 {
          assert id !in head;
          forall m | 0 <= m < |sections[0].lessons| ensures sections[0].lessons[m].id != id {
            assert head[m] == sections[0].lessons[m].id;
          }
        } else {
          assert sections[1..][j - 1] == sections[j];
        }
      }
    }
  }

  lemma NoDupSplit(a: seq<string>, b: seq<string>)
    requires NoDup(a + b)
    ensures NoDup(a) && NoDup(b) && forall x :: x in a ==> x !in b
  {
    forall i, j | 0 <= i < j < |a| ensures a[i] != a[j] {
      assert (a + b)[i] == a[i] && (a + b)[j] == a[j];
    }
    forall i, j | 0 <= i < j < |b| ensures b[i] != b[j] {
      assert (a + b)[|a| + i] == b[i] && (a + b)[|a| + j] == b[j];
    }
    forall x | x in a ensures x !in b {
      var i :| 0 <= i < |a| && a[i] == x;
      forall j | 0 <= j < |b| ensures b[j] != x {
        assert (a + b)[i] == a[i] && (a + b)[|a| + j] == b[j];
      }
    }
  }

  /** With unique lesson ids in the course, the ids inside one section are unique too. */
  lemma {:induction false} UniqueWithinSection(sections: seq<CourseSection>, i: int)
    requires NoDup(AllLessonIds(sections)) && 0 <= i < |sections|
    ensures NoDup(LessonIds(sections[i]))
    decreases |sections|
  {
    NoDupSplit(LessonIds(sections[0]), AllLessonIds(sections[1..]));
    if i > 0 {
      UniqueWithinSection(sections[1..], i - 1);
      assert sections[1..][i - 1] == sections[i];
    }
  }

  /** Every lesson of the course, section by section (Kotlin `sections.flatMap { it.lessons }`). */
  function AllLessons(sections: seq<CourseSection>): (r: seq<Lesson>)
    ensures Map(r, (l: Lesson) => l.id) == AllLessonIds(sections)
    decreases |sections|
  {
    if |sections| == 0 then []
    else
      var r := sections[0].lessons + AllLessons(sections[1..]);
      assert Map(r, (l: Lesson) => l.id) == LessonIds(sections[0]) + AllLessonIds(sections[1..]);
      r
  }

  /** The resume notice: the course and the first of its lessons with the stored last lesson id. */
  function ResumeNotice(course: Option<Course>, p: Prefs): (r: Option<(Course, Lesson)>)
    ensures r.Some? <==> course.Some? && p.lastLessonId.Some? && p.lastLessonId.value in AllLessonIds(course.value.sections)
    ensures r.Some? ==> r.value.0 == course.value && r.value.1.id == p.lastLessonId.value &&
                        r.value.1 in AllLessons(course.value.sections)
    ensures r.Some? ==>
              var all := AllLessons(course.value.sections);
              exists k :: 0 <= k < |all| && r.value.1 == all[k] &&
                          forall j :: 0 <= j < k ==> all[j].id != p.lastLessonId.value
  {
    match (course, p.lastLessonId)
    case (Some(c), Some(id)) =>
      var all := AllLessons(c.sections);
      var ids := Map(all, (l: Lesson) => l.id);
      assert forall k :: 0 <= k < |all| ==> (all[k].id == id <==> ids[k] == id);
      (match Find(all, (l: Lesson) => l.id == id)
       case None => None
       case Some(l) => Some((c, l)))
    case _ => None
  }

  /** After a lesson of the course is completed, the resume notice names that lesson's id. */
  lemma CompletionEnablesResume(p: Prefs, c: Course, i: int, k: int, now: int)
    requires 0 <= i < |c.sections| && 0 <= k < |c.sections[i].lessons|
    ensures var l := c.sections[i].lessons[k];
            var r := ResumeNotice(Some(c), TrackLessonCompletion(p, c.id, l.id, now));
            r.Some? && r.value.1.id == l.id
  {
    var l := c.sections[i].lessons[k];
    AllLessonIdsMembership(c.sections, l.id);
    assert HasLesson(c.sections[i], l.id);
  }
}
