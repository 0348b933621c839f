/**
 * The Firestore repository of the course app, as pure transformations of
 * the documents it reads: enrollment creation, the repository's own
 * progress update (a second copy of the percentage rule, fed by a
 * lesson-count stub), section and lesson insertion with timestamp ids,
 * and the content type chosen for an upload.
 */
module RemoteRepository {
  import opened Wrappers
  import opened Seqs
  import opened Text
  import opened CourseModel
  import CourseEdits
  import Progress

  /** The repository's private `calculateProgress`; a non-positive total gives 0. */
  function RepoCalculateProgress(completed: nat, total: int): (r: int)
    ensures total <= 0 ==> r == 0
    ensures total > 0 ==> r * total <= completed * 100 < (r + 1) * total
  {
    if total > 0 then completed * 100 / total else 0
  }

  /** The repository copy of the formula agrees with the view model's. */
  lemma RepoProgressAgrees(completed: nat, total: nat)
    ensures RepoCalculateProgress(completed, total) == Progress.CalculateProgress(completed, total)
  {
  }

  /** `getTotalLessons` is a stub: it reports no lessons whatever the course. */
  function GetTotalLessons(courseId: string): (r: int)
    ensures r == 0
  {
    0
  }

  /**
   * The repository's `updateCourseProgress`: the lesson id is appended
   * without a membership check and the progress is recomputed from the
   * stub total.
   */
  function RepoUpdateCourseProgress(enrollment: Option<CourseEnrollment>, courseId: string, lessonId: string): (r: Option<CourseEnrollment>)
    ensures enrollment.None? <==> r.None?
    ensures r.Some? ==>
              var e, w := enrollment.value, r.value;
              w == e.(completedLessons := w.completedLessons, progress := w.progress) &&
              |w.completedLessons| == |e.completedLessons| + 1 &&
              w.completedLessons[..|e.completedLessons|] == e.completedLessons &&
              w.completedLessons[|e.completedLessons|] == lessonId
  {
    match enrollment
    case None => None
    case Some(e) =>
      var updated := e.completedLessons + [lessonId];
      assert updated[..|e.completedLessons|] == e.completedLessons;
      Some(e.(completedLessons := updated, progress := RepoCalculateProgress(|updated|, GetTotalLessons(courseId))))
  }

  /** Because the lesson count is stubbed, every progress the repository stores is 0. */
  lemma RepoProgressAlwaysZero(enrollment: Option<CourseEnrollment>, courseId: string, lessonId: string)
    requires enrollment.Some?
    ensures RepoUpdateCourseProgress(enrollment, courseId, lessonId).value.progress == 0
  {
  }

  /**
   * Completing an already-completed lesson through the repository
   * records it a second time, unlike the view model's path, which keeps
   * the list unchanged.
   */
  lemma RepoRepeatDuplicates(e: CourseEnrollment, courseId: string, lessonId: string)
    requires lessonId in e.completedLessons
    ensures !NoDup(RepoUpdateCourseProgress(Some(e), courseId, lessonId).value.completedLessons)
    ensures Progress.CompleteLesson(e.completedLessons, lessonId) == e.completedLessons
  {
    var w := RepoUpdateCourseProgress(Some(e), courseId, lessonId).value.completedLessons;
    var j :| 0 <= j < |e.completedLessons| && e.completedLessons[j] == lessonId;
    assert w[j] == lessonId && w[|e.completedLessons|] == lessonId;
  }

  /** The enrollment document key "<userId>_<courseId>". */
  function EnrollmentKey(userId: string, courseId: string): (r: string)
    ensures |r| == |userId| + 1 + |courseId|
  {
    userId + "_" + courseId
  }

  /** For ids without an underscore, the key determines both ids. */
  lemma EnrollmentKeyDecodes(userId: string, courseId: string)
    requires '_' !in userId && '_' !in courseId
    ensures Split(EnrollmentKey(userId, courseId), '_') == [userId, courseId]
  {
    SplitJoin([userId, courseId], '_');
    assert Join([userId, courseId], '_') == userId + ['_'] + Join([courseId], '_');
    assert EnrollmentKey(userId, courseId) == Join([userId, courseId], '_');
  }

  datatype EnrollResult = EnrollResult(key: string, enrollment: CourseEnrollment, course: Option<Course>)

  /**
   * `enrollInCourse`: a fresh enrollment is written under the pair's key
   * and the course's enrolment count, when the course exists, goes up by
   * one with every other field kept.
   */
  function EnrollInCourse(userId: string, courseId: string, now: int, course: Option<Course>): (r: EnrollResult)
    ensures r.key == EnrollmentKey(userId, courseId)
    ensures r.enrollment.courseId == courseId && r.enrollment.studentId == userId
    ensures r.enrollment.progress == 0 && r.enrollment.completedLessons == [] && r.enrollment.enrolledDate == now
    ensures course.None? <==> r.course.None?
    ensures course.Some? ==>
              r.course.value.enrolledStudents == course.value.enrolledStudents + 1 &&
              r.course.value == course.value.(enrolledStudents := r.course.value.enrolledStudents)
  {
    var c' := match course
      case None => None
      case Some(c) => Some(c.(enrolledStudents := c.enrolledStudents + 1));
    EnrollResult(EnrollmentKey(userId, courseId), NewEnrollment(courseId, userId, now), c')
  }

  /** The timestamp id "<parentId>_<millis>" given to sections and lessons the repository creates. */
  function TimestampId(parentId: string, now: int): string
  {
    parentId + "_" + IntToString(now)
  }

  /** Two ids made under the same parent at different times differ. */
  lemma TimestampIdInjective(parentId: string, t1: int, t2: int)
    requires TimestampId(parentId, t1) == TimestampId(parentId, t2)
    ensures t1 == t2
  {
    var n := |parentId| + 1;
    assert IntToString(t1) == TimestampId(parentId, t1)[n..];
    assert IntToString(t2) == TimestampId(parentId, t2)[n..];
    IntToStringInjective(t1, t2);
  }

  /**
   * The repository's `addSectionToCourse`: the same append as the view
   * model's, with the id "<courseId>_<millis>"; a missing course is left
   * missing.
   */
  function RepoAddSection(course: Option<Course>, courseId: string, title: string, now: int): (r: Option<Course>)
    ensures course.None? <==> r.None?
    ensures course.Some? ==>
              var c, t := course.value, r.value;
              t == c.(sections := t.sections) &&
              |t.sections| == |c.sections| + 1 && t.sections[..|c.sections|] == c.sections &&
              t.sections[|c.sections|] == CourseSection(TimestampId(courseId, now), title, [], [])
  {
    match course
    case None => None
    case Some(c) => Some(CourseEdits.AddSection(c, TimestampId(courseId, now), title))
  }

  /**
   * The repository's `addLessonToSection`: the view model's id-targeted
   * append of a lesson whose id is "<sectionId>_<millis>".
   */
  function RepoAddLesson(course: Option<Course>, sectionId: string, title: string, description: string,
                         videoUrl: string, duration: string, pdfUrl: string, imageUrl: string, now: int): (r: Option<Course>)
    ensures course.None? <==> r.None?
    ensures course.Some? ==>
              var c, t := course.value, r.value;
              CourseEdits.OnlySectionChanged(c, t, sectionId) &&
              forall i :: 0 <= i < |c.sections| && c.sections[i].id == sectionId ==>
                t.sections[i].lessons == c.sections[i].lessons +
                  [Lesson(TimestampId(sectionId, now), title, description, duration, videoUrl, pdfUrl, imageUrl)]
  {
    match course
    case None => None
    case Some(c) =>
      Some(CourseEdits.AddLesson(c, sectionId,
             Lesson(TimestampId(sectionId, now), title, description, duration, videoUrl, pdfUrl, imageUrl)))
  }

  /** The content type `uploadFileToStorage` attaches, chosen by the path's suffix in this order. */
  function ContentType(path: string): (r: string)
    ensures IsSuffix(".jpg", path) || IsSuffix(".jpeg", path) <==> r == "image/jpeg"
    ensures r == "image/png" <==> !IsSuffix(".jpg", path) && !IsSuffix(".jpeg", path) && IsSuffix(".png", path)
    ensures r == "application/pdf" <==> !IsSuffix(".jpg", path) && !IsSuffix(".jpeg", path) &&
                                        !IsSuffix(".png", path) && IsSuffix(".pdf", path)
    ensures r == "video/mp4" <==> !IsSuffix(".jpg", path) && !IsSuffix(".jpeg", path) &&
                                  !IsSuffix(".png", path) && !IsSuffix(".pdf", path) && IsSuffix(".mp4", path)
    ensures r == "application/octet-stream" <==>
              !IsSuffix(".jpg", path) && !IsSuffix(".jpeg", path) && !IsSuffix(".png", path) &&
              !IsSuffix(".pdf", path) && !IsSuffix(".mp4", path)
  {
    if IsSuffix(".jpg", path) || IsSuffix(".jpeg", path) then "image/jpeg"
    else if IsSuffix(".png", path) then "image/png"
    else if IsSuffix(".pdf", path) then "application/pdf"
    else if IsSuffix(".mp4", path) then "video/mp4"
    else "application/octet-stream"
  }

  /** The view model's `getFileExtension`: the extension for a content type, "" for any other. */
  function FileExtension(mimeType: string): string
  {
    match mimeType
    case "image/jpeg" => ".jpg"
    case "image/png" => ".png"
    case "application/pdf" => ".pdf"
    case "video/mp4" => ".mp4"
    case _ => ""
  }

  /** A file named with the extension of a known content type is uploaded under that same content type. */
  lemma ContentTypeOfExtension(name: string, mimeType: string)
    requires mimeType in ["image/jpeg", "image/png", "application/pdf", "video/mp4"]
    ensures ContentType(name + FileExtension(mimeType)) == mimeType
  {
    var p := name + FileExtension(mimeType);
    var e := FileExtension(mimeType);
    assert p[|p| - |e|..] == e;
    assert !IsSuffix(".jpeg", p) by {
      if |p| >= 5 { assert p[|p| - 4] == e[0]; }
    }
  }

  /** A string with no dot in it does not end with an extension. */
  lemma NoDotNoExtension(ext: string, p: string)
    requires |ext| > 0 && ext[0] == '.' && '.' !in p
    ensures !IsSuffix(ext, p)
  {
    if |ext| <= |p| {
      assert p[|p| - |ext|..][0] == p[|p| - |ext|];
    }
  }

  /** A path with no dot in it has none of the known extensions, so it is uploaded as an octet stream. */
  lemma NoDotOctetStream(p: string)
    requires '.' !in p
    ensures ContentType(p) == "application/octet-stream"
  {
    NoDotNoExtension(".jpg", p);
    NoDotNoExtension(".jpeg", p);
    NoDotNoExtension(".png", p);
    NoDotNoExtension(".pdf", p);
    NoDotNoExtension(".mp4", p);
  }

  /** A lesson upload's storage path carries the content type its media kind needs. */
  lemma UploadPathContentType(mediaType: string, uuid: string)
    requires '.' !in uuid
    ensures mediaType == "image" ==> ContentType(CourseEdits.UploadPath(mediaType, uuid)) == "image/jpeg"
    ensures mediaType == "video" ==> ContentType(CourseEdits.UploadPath(mediaType, uuid)) == "video/mp4"
    ensures mediaType == "pdf" ==> ContentType(CourseEdits.UploadPath(mediaType, uuid)) == "application/pdf"
    ensures CourseEdits.ParseMediaKind(mediaType).None? && '.' !in mediaType ==>
              ContentType(CourseEdits.UploadPath(mediaType, uuid)) == "application/octet-stream"
  {
    if mediaType == "image" {
      ContentTypeOfExtension("lessons/images/" + uuid, "image/jpeg");
      assert CourseEdits.UploadPath(mediaType, uuid) == "lessons/images/" + uuid + FileExtension("image/jpeg");
    } else if mediaType == "video" {
      ContentTypeOfExtension("lessons/videos/" + uuid, "video/mp4");
      assert CourseEdits.UploadPath(mediaType, uuid) == "lessons/videos/" + uuid + FileExtension("video/mp4");
    } else if mediaType == "pdf" {
      ContentTypeOfExtension("lessons/pdfs/" + uuid, "application/pdf");
      assert CourseEdits.UploadPath(mediaType, uuid) == "lessons/pdfs/" + uuid + FileExtension("application/pdf");
    } else if CourseEdits.ParseMediaKind(mediaType).None? && '.' !in mediaType {
      var p := CourseEdits.UploadPath(mediaType, uuid);
      assert '.' !in p by {
        assert p == "lessons/" + mediaType + "s/" + uuid;
      }
      NoDotOctetStream(p);
    }
  }
}
