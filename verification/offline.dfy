/**
 * The offline copy of a course: the three Room tables of downloaded
 * courses, sections and lessons, the DAO's queries and deletes over them,
 * `downloadCourse`, which flattens a course into rows, and
 * `loadDownloadedCourses`, which rebuilds courses from the rows.
 *
 * A table is the sequence of its rows in insertion order; an insert with
 * the REPLACE strategy deletes any row with the same primary key and adds
 * the new row at the end.  `ORDER BY order` is a stable sort on that
 * column.  File downloads are replaced by the local path each would
 * produce under the app's external files directory `dir`.
 */
module OfflineStore {
  import opened Wrappers
  import opened Seqs
  import opened Sorting
  import opened CourseModel

  /**
   * A `downloaded_courses` row.  The `downloadDate` column is written with
   * the clock at insert time and never read back, so it is not modelled.
   */
  datatype CourseRow = CourseRow(id: string, title: string, description: string, instructor: string, category: string)

  datatype SectionRow = SectionRow(id: string, courseId: string, title: string, order: int)

  datatype LessonRow = LessonRow(id: string, sectionId: string, courseId: string, title: string,
                                 description: string, duration: string, order: int,
                                 localVideoPath: Option<string>, localPdfPath: Option<string>,
                                 localImagePath: Option<string>)

  datatype Db = Db(courses: seq<CourseRow>, sections: seq<SectionRow>, lessons: seq<LessonRow>)

  // ---------------------------------------------------------------------
  // Tables keyed by id
  // ---------------------------------------------------------------------

  /** An insert with `OnConflictStrategy.REPLACE`. */
  function Upsert<T(==,!new)>(t: seq<T>, row: T, idOf: T -> string): (r: seq<T>)
    ensures row in r
    ensures forall x :: x in r <==> x == row || (x in t && idOf(x) != idOf(row))
    ensures forall x :: x in r && idOf(x) == idOf(row) ==> x == row
  {
    Filter(t, (x: T) => idOf(x) != idOf(row)) + [row]
  }

  /** Primary keys are unique. */
  predicate KeysUnique<T>(t: seq<T>, idOf: T -> string)
  {
    NoDup(Map(t, idOf))
  }

  /** No key of `rows` is already a key of `t`. */
  predicate KeysDisjoint<T>(t: seq<T>, rows: seq<T>, idOf: T -> string)
  {
    forall i, j :: 0 <= i < |t| && 0 <= j < |rows| ==> idOf(t[i]) != idOf(rows[j])
  }

  lemma MapMember<A, B>(s: seq<A>, f: A -> B, x: A)
    requires x in s
    ensures f(x) in Map(s, f)
  {
    var k :| 0 <= k < |s| && s[k] == x;
    assert Map(s, f)[k] == f(x);
  }

  /** REPLACE keeps the table a map from id to row. */
  lemma UpsertKeepsKeysUnique<T(!new)>(t: seq<T>, row: T, idOf: T -> string)
    requires KeysUnique(t, idOf)
    ensures KeysUnique(Upsert(t, row, idOf), idOf)
  {
    var f := Filter(t, (x: T) => idOf(x) != idOf(row));
    FilterKeysUnique(t, idOf, idOf(row));
    var fi := Map(f, idOf);
    assert forall k :: 0 <= k < |fi| ==> fi[k] != idOf(row);
    assert Map(f + [row], idOf) == fi + [idOf(row)];
    NoDupCons(idOf(row), fi);
  }

  lemma {:induction false} FilterKeysUnique<T(!new)>(t: seq<T>, idOf: T -> string, id: string)
    requires KeysUnique(t, idOf)
    ensures KeysUnique(Filter(t, (x: T) => idOf(x) != id), idOf)
    decreases |t|
  {
    if |t| > 0 {
      var ids := Map(t, idOf);
      NoDupTail(ids);
      assert Map(t[1..], idOf) == ids[1..];
      FilterKeysUnique(t[1..], idOf, id);
      var rest := Filter(t[1..], (x: T) => idOf(x) != id);
      if idOf(t[0]) != id {
        forall k | 0 <= k < |rest| ensures idOf(rest[k]) != idOf(t[0]) {
          MapMember(t[1..], idOf, rest[k]);
        }
        var ri := Map(rest, idOf);
        assert forall k :: 0 <= k < |ri| ==> ri[k] != idOf(t[0]);
        assert Map([t[0]] + rest, idOf) == [idOf(t[0])] + ri;
        NoDupCons(idOf(t[0]), ri);
      }
    }
  }

  /** A list insert: each row REPLACEd in turn. */
  function UpsertAll<T(==,!new)>(t: seq<T>, rows: seq<T>, idOf: T -> string): seq<T>
    decreases |rows|
  {
    if |rows| == 0 then t else UpsertAll(Upsert(t, rows[0], idOf), rows[1..], idOf)
  }

  /** A row whose key is new to the table is simply appended. */
  lemma UpsertFresh<T(!new)>(t: seq<T>, row: T, idOf: T -> string)
    requires forall i :: 0 <= i < |t| ==> idOf(t[i]) != idOf(row)
    ensures Upsert(t, row, idOf) == t + [row]
  {
    FilterAll(t, (x: T) => idOf(x) != idOf(row));
  }

  /** After the first fresh row is appended, the remaining rows are still fresh and distinct. */
  lemma FreshStep<T(!new)>(t: seq<T>, rows: seq<T>, idOf: T -> string)
    requires |rows| > 0 && KeysUnique(rows, idOf) && KeysDisjoint(t, rows, idOf)
    ensures KeysUnique(rows[1..], idOf) && KeysDisjoint(t + [rows[0]], rows[1..], idOf)
  {
    var ids := Map(rows, idOf);
    NoDupTail(ids);
    assert Map(rows[1..], idOf) == ids[1..];
    var t', rest := t + [rows[0]], rows[1..];
    forall i, j | 0 <= i < |t'| && 0 <= j < |rest| ensures idOf(t'[i]) != idOf(rest[j]) {
      if i == |t| {
        assert ids[1..][j] == idOf(rest[j]);
      } else {
        assert t'[i] == t[i] && rest[j] == rows[j + 1];
      }
    }
  }

  /** The first row of a list whose keys are new to the table is simply appended. */
  lemma UpsertFirstFresh<T(!new)>(t: seq<T>, rows: seq<T>, idOf: T -> string)
    requires |rows| > 0 && KeysDisjoint(t, rows, idOf)
    ensures UpsertAll(t, rows, idOf) == UpsertAll(t + [rows[0]], rows[1..], idOf)
  {
    assert forall i :: 0 <= i < |t| ==> idOf(t[i]) != idOf(rows[0]);
    UpsertFresh(t, rows[0], idOf);
  }

  lemma AppendHead<T>(t: seq<T>, rows: seq<T>)
    requires |rows| > 0
    ensures t + [rows[0]] + rows[1..] == t + rows
  {
    assert rows == [rows[0]] + rows[1..];
  }

  /** Rows whose keys are new to the table and to each other are simply appended. */
  lemma {:induction false} UpsertAllFresh<T(!new)>(t: seq<T>, rows: seq<T>, idOf: T -> string)
    requires KeysUnique(rows, idOf) && KeysDisjoint(t, rows, idOf)
    ensures UpsertAll(t, rows, idOf) == t + rows
    decreases |rows|
  {
    if |rows| > 0 {
      UpsertFirstFresh(t, rows, idOf);
      FreshStep(t, rows, idOf);
      UpsertAllFresh(t + [rows[0]], rows[1..], idOf);
      AppendHead(t, rows);
    }
  }

  function CourseKey(r: CourseRow): string { r.id }
  function SectionKey(r: SectionRow): string { r.id }
  function LessonKey(r: LessonRow): string { r.id }
  function SectionOrder(r: SectionRow): int { r.order }
  function LessonOrder(r: LessonRow): int { r.order }

  // ---------------------------------------------------------------------
  // DAO queries
  // ---------------------------------------------------------------------

  /** `getSectionsForCourse`: the course's section rows, ascending by `order`. */
  function SectionsForCourse(db: Db, courseId: string): (r: seq<SectionRow>)
    ensures forall x :: x in r <==> x in db.sections && x.courseId == courseId
    ensures multiset(r) == multiset(Filter(db.sections, (x: SectionRow) => x.courseId == courseId))
    ensures SortedBy(r, SectionOrder)
  {
    var r := SortBy(Filter(db.sections, (x: SectionRow) => x.courseId == courseId), SectionOrder);
    assert forall x :: x in r <==> x in multiset(r);
    r
  }

  /** `getLessonsForSection`: the section's lesson rows, ascending by `order`. */
  function LessonsForSection(db: Db, sectionId: string): (r: seq<LessonRow>)
    ensures forall x :: x in r <==> x in db.lessons && x.sectionId == sectionId
    ensures multiset(r) == multiset(Filter(db.lessons, (x: LessonRow) => x.sectionId == sectionId))
    ensures SortedBy(r, LessonOrder)
  {
    var r := SortBy(Filter(db.lessons, (x: LessonRow) => x.sectionId == sectionId), LessonOrder);
    assert forall x :: x in r <==> x in multiset(r);
    r
  }

  /** `getLessonsForCourse`: the course's lesson rows, ascending by `order`. */
  function LessonsForCourse(db: Db, courseId: string): (r: seq<LessonRow>)
    ensures forall x :: x in r <==> x in db.lessons && x.courseId == courseId
    ensures multiset(r) == multiset(Filter(db.lessons, (x: LessonRow) => x.courseId == courseId))
    ensures SortedBy(r, LessonOrder)
  {
    var r := SortBy(Filter(db.lessons, (x: LessonRow) => x.courseId == courseId), LessonOrder);
    assert forall x :: x in r <==> x in multiset(r);
    r
  }

  /** `getDownloadedCourse`: the course row with the id, if any. */
  function GetDownloadedCourse(db: Db, courseId: string): (r: Option<CourseRow>)
    ensures r.None? <==> forall i :: 0 <= i < |db.courses| ==> db.courses[i].id != courseId
    ensures r.Some? ==> r.value in db.courses && r.value.id == courseId
  {
    Find(db.courses, (x: CourseRow) => x.id == courseId)
  }

  /** A course row just inserted is the one read back by its id. */
  lemma InsertThenGetCourse(db: Db, row: CourseRow)
    ensures GetDownloadedCourse(db.(courses := Upsert(db.courses, row, CourseKey)), row.id) == Some(row)
  {
    var t := Upsert(db.courses, row, CourseKey);
    var r := GetDownloadedCourse(db.(courses := t), row.id);
    assert t[|t| - 1] == row;
  }

  /** `deleteCourseById`: exactly the course row with the id goes. */
  function DeleteCourseById(db: Db, courseId: string): (r: Db)
    ensures r.sections == db.sections && r.lessons == db.lessons
    ensures forall x :: x in r.courses <==> x in db.courses && x.id != courseId
    ensures IsSubsequence(r.courses, db.courses)
  {
    db.(courses := Filter(db.courses, (x: CourseRow) => x.id != courseId))
  }

  /** `deleteSectionsForCourse`: exactly the course's section rows go. */
  function DeleteSectionsForCourse(db: Db, courseId: string): (r: Db)
    ensures r.courses == db.courses && r.lessons == db.lessons
    ensures forall x :: x in r.sections <==> x in db.sections && x.courseId != courseId
    ensures IsSubsequence(r.sections, db.sections)
  {
    db.(sections := Filter(db.sections, (x: SectionRow) => x.courseId != courseId))
  }

  /** `deleteLessonsForCourse`: exactly the course's lesson rows go. */
  function DeleteLessonsForCourse(db: Db, courseId: string): (r: Db)
    ensures r.courses == db.courses && r.sections == db.sections
    ensures forall x :: x in r.lessons <==> x in db.lessons && x.courseId != courseId
    ensures IsSubsequence(r.lessons, db.lessons)
  {
    db.(lessons := Filter(db.lessons, (x: LessonRow) => x.courseId != courseId))
  }

  /** The three path columns a `updateLesson*Path` query can set. */
  datatype PathColumn = VideoPath | PdfPath | ImagePath

  function SetPath(r: LessonRow, column: PathColumn, path: Option<string>): LessonRow
  {
    match column
    case VideoPath => r.(localVideoPath := path)
    case PdfPath => r.(localPdfPath := path)
    case ImagePath => r.(localImagePath := path)
  }

  /** `updateLessonVideoPath` and its two siblings: one column of the rows with the id, nothing else. */
  function UpdateLessonPath(db: Db, lessonId: string, column: PathColumn, path: Option<string>): (r: Db)
    ensures r.courses == db.courses && r.sections == db.sections && |r.lessons| == |db.lessons|
    ensures forall k :: 0 <= k < |db.lessons| && db.lessons[k].id != lessonId ==> r.lessons[k] == db.lessons[k]
    ensures forall k :: 0 <= k < |db.lessons| && db.lessons[k].id == lessonId ==>
              var x, y := db.lessons[k], r.lessons[k];
              y.id == x.id && y.sectionId == x.sectionId && y.courseId == x.courseId && y.order == x.order &&
              y.title == x.title && y.description == x.description && y.duration == x.duration &&
              (if column == VideoPath then y.localVideoPath == path else y.localVideoPath == x.localVideoPath) &&
              (if column == PdfPath then y.localPdfPath == path else y.localPdfPath == x.localPdfPath) &&
              (if column == ImagePath then y.localImagePath == path else y.localImagePath == x.localImagePath)
  {
    db.(lessons := Map(db.lessons, (x: LessonRow) => if x.id == lessonId then SetPath(x, column, path) else x))
  }

  // ---------------------------------------------------------------------
  // downloadCourse
  // ---------------------------------------------------------------------

  function CourseRowOf(c: Course): CourseRow
  {
    CourseRow(c.id, c.title, c.description, c.instructor, c.category)
  }

  /** Section rows carry their position in the course as `order`. */
  function SectionRows(c: Course): (r: seq<SectionRow>)
    ensures |r| == |c.sections|
    ensures forall i :: 0 <= i < |r| ==> r[i] == SectionRow(c.sections[i].id, c.id, c.sections[i].title, i)
  {
    seq(|c.sections|, i requires 0 <= i < |c.sections| => SectionRow(c.sections[i].id, c.id, c.sections[i].title, i))
  }

  /** The file a media url is saved to: "<dir>/<courseId>_<lessonId>_<kind>". */
  function LocalPath(dir: string, courseId: string, lessonId: string, suffix: string): string
  {
    dir + "/" + courseId + "_" + lessonId + suffix
  }

  /** A non-empty url is downloaded to the path; an empty one leaves the column null. */
  function Downloaded(url: string, path: string): (r: Option<string>)
    ensures r.None? <==> url == ""
  {
    if url == "" then None else Some(path)
  }

  function LessonRowOf(courseId: string, s: CourseSection, l: Lesson, index: int, dir: string): LessonRow
  {
    LessonRow(l.id, s.id, courseId, l.title, l.description, l.duration, index,
              Downloaded(l.videoUrl, LocalPath(dir, courseId, l.id, "_video.mp4")),
              Downloaded(l.pdfUrl, LocalPath(dir, courseId, l.id, "_pdf.pdf")),
              Downloaded(l.imageUrl, LocalPath(dir, courseId, l.id, "_image.jpg")))
  }

  /** Lesson rows of one section carry their position in the section as `order`. */
  function SectionLessonRows(courseId: string, s: CourseSection, dir: string): (r: seq<LessonRow>)
    ensures |r| == |s.lessons|
    ensures forall k :: 0 <= k < |r| ==> r[k] == LessonRowOf(courseId, s, s.lessons[k], k, dir)
  {
    seq(|s.lessons|, k requires 0 <= k < |s.lessons| => LessonRowOf(courseId, s, s.lessons[k], k, dir))
  }

  /** The lesson rows in the order `downloadCourse` inserts them: section by section. */
  function LessonRows(courseId: string, sections: seq<CourseSection>, dir: string): seq<LessonRow>
    decreases |sections|
  {
    if |sections| == 0 then []
    else SectionLessonRows(courseId, sections[0], dir) + LessonRows(courseId, sections[1..], dir)
  }

  /**
   * `downloadCourse` when every file download succeeds: the course row,
   * then the section rows as one list, then each lesson row in turn.
   */
  function Download(db: Db, c: Course, dir: string): Db
  {
    Db(Upsert(db.courses, CourseRowOf(c), CourseKey),
       UpsertAll(db.sections, SectionRows(c), SectionKey),
       UpsertAll(db.lessons, LessonRows(c.id, c.sections, dir), LessonKey))
  }

  /** Number of media a lesson has: its non-empty urls. */
  function MediaCount(l: Lesson): int
  {
    (if l.videoUrl != "" then 1 else 0) + (if l.pdfUrl != "" then 1 else 0) + (if l.imageUrl != "" then 1 else 0)
  }

  /** `totalItems`: the non-empty urls over every lesson of the course. */
  function TotalItems(c: Course): int
  {
    SumOf(c.sections, (s: CourseSection) => SumOf(s.lessons, MediaCount))
  }

  /** Number of path columns of a row that are set. */
  function PathCount(r: LessonRow): int
  {
    (if r.localVideoPath.Some? then 1 else 0) + (if r.localPdfPath.Some? then 1 else 0) +
    (if r.localImagePath.Some? then 1 else 0)
  }

  /** Every item counted in `totalItems` ends up as exactly one local path in the lesson rows. */
  lemma {:induction false} TotalItemsArePaths(courseId: string, sections: seq<CourseSection>, dir: string)
    ensures SumOf(LessonRows(courseId, sections, dir), PathCount) ==
            SumOf(sections, (s: CourseSection) => SumOf(s.lessons, MediaCount))
    decreases |sections|
  {
    if |sections| > 0 {
      var s := sections[0];
      TotalItemsArePaths(courseId, sections[1..], dir);
      SumOfConcat(SectionLessonRows(courseId, s, dir), LessonRows(courseId, sections[1..], dir), PathCount);
      SumOfPointwise(SectionLessonRows(courseId, s, dir), PathCount, s.lessons, MediaCount);
    }
  }

  // ---------------------------------------------------------------------
  // loadDownloadedCourses
  // ---------------------------------------------------------------------

  /** A stored lesson: each missing local path becomes "", and a stored path becomes the lesson's url. */
  function DecodeLesson(r: LessonRow): (l: Lesson)
    ensures l.id == r.id && l.title == r.title && l.description == r.description && l.duration == r.duration
    ensures l.videoUrl == (if r.localVideoPath.Some? then r.localVideoPath.value else "")
    ensures l.pdfUrl == (if r.localPdfPath.Some? then r.localPdfPath.value else "")
    ensures l.imageUrl == (if r.localImagePath.Some? then r.localImagePath.value else "")
  {
    Lesson(r.id, r.title, r.description, r.duration, r.localVideoPath.GetOr(""), r.localPdfPath.GetOr(""),
           r.localImagePath.GetOr(""))
  }

  /** A stored section with its lessons in stored order, and no quizzes, which are not stored. */
  function DecodeSection(db: Db, r: SectionRow): (s: CourseSection)
    ensures s.id == r.id && s.title == r.title && s.quizzes == []
    ensures |s.lessons| == |LessonsForSection(db, r.id)|
    ensures forall i :: 0 <= i < |s.lessons| ==> s.lessons[i] == DecodeLesson(LessonsForSection(db, r.id)[i])
  {
    CourseSection(r.id, r.title, Map(LessonsForSection(db, r.id), DecodeLesson), [])
  }

  /**
   * A stored course, rebuilt with the `Course` defaults for every field the
   * row lacks; `now` is the clock reading the `createdAt` default takes.
   */
  function DecodeCourse(db: Db, r: CourseRow, now: int): (c: Course)
    ensures c.id == r.id && c.title == r.title && c.description == r.description
    ensures c.instructor == r.instructor && c.category == r.category
    ensures c.imageUrl == "" && c.rating == 0.0 && c.duration == "" && c.price == 0.0
    ensures c.enrolledStudents == 0 && c.createdAt == now
    ensures |c.sections| == |SectionsForCourse(db, r.id)|
    ensures forall i :: 0 <= i < |c.sections| ==> c.sections[i] == DecodeSection(db, SectionsForCourse(db, r.id)[i])
    ensures forall i :: 0 <= i < |c.sections| ==> c.sections[i].quizzes == []
  {
    Course(r.id, r.title, r.description, "", r.instructor, 0.0, "", r.category, 0.0, 0,
           Map(SectionsForCourse(db, r.id), (s: SectionRow) => DecodeSection(db, s)), now)
  }

  /** `loadDownloadedCourses`: one course per course row. */
  function LoadDownloadedCourses(db: Db, now: int): (r: seq<Course>)
    ensures |r| == |db.courses|
    ensures forall i :: 0 <= i < |r| ==> r[i] == DecodeCourse(db, db.courses[i], now)
  {
    Map(db.courses, (x: CourseRow) => DecodeCourse(db, x, now))
  }

  // ---------------------------------------------------------------------
  // The round trip
  // ---------------------------------------------------------------------

  /** What a lesson looks like offline: each non-empty url replaced by its local path. */
  function OfflineLesson(courseId: string, l: Lesson, dir: string): Lesson
  {
    l.(videoUrl := if l.videoUrl == "" then "" else LocalPath(dir, courseId, l.id, "_video.mp4"),
       pdfUrl := if l.pdfUrl == "" then "" else LocalPath(dir, courseId, l.id, "_pdf.pdf"),
       imageUrl := if l.imageUrl == "" then "" else LocalPath(dir, courseId, l.id, "_image.jpg"))
  }

  function OfflineSection(courseId: string, s: CourseSection, dir: string): CourseSection
  {
    CourseSection(s.id, s.title, Map(s.lessons, (l: Lesson) => OfflineLesson(courseId, l, dir)), [])
  }

  /**
   * The course `loadDownloadedCourses` gives back: the same id, title,
   * description, instructor and category, the same sections and lessons in
   * the same order, no quizzes, local paths for urls, and defaults for the
   * fields the rows do not keep.
   */
  function OfflineCopy(c: Course, dir: string, now: int): Course
  {
    Course(c.id, c.title, c.description, "", c.instructor, 0.0, "", c.category, 0.0, 0,
           Map(c.sections, (s: CourseSection) => OfflineSection(c.id, s, dir)), now)
  }

  function SectionIds(c: Course): seq<string>
  {
    Map(c.sections, (s: CourseSection) => s.id)
  }

  /**
   * The store holds nothing that clashes with the course: section and
   * lesson ids are unique, none of them is already a key, and no row is
   * filed under the course or its sections.
   */
  predicate FreshFor(db: Db, c: Course)
  {
    NoDup(SectionIds(c)) && NoDup(AllLessonIds(c.sections)) &&
    (forall i :: 0 <= i < |db.sections| ==> db.sections[i].courseId != c.id && db.sections[i].id !in SectionIds(c)) &&
    (forall i :: 0 <= i < |db.lessons| ==>
       db.lessons[i].courseId != c.id && db.lessons[i].sectionId !in SectionIds(c) &&
       db.lessons[i].id !in AllLessonIds(c.sections))
  }

  lemma {:induction false} LessonRowKeys(courseId: string, sections: seq<CourseSection>, dir: string)
    ensures Map(LessonRows(courseId, sections, dir), LessonKey) == AllLessonIds(sections)
    decreases |sections|
  {
    if |sections| > 0 {
      LessonRowKeys(courseId, sections[1..], dir);
      var a := SectionLessonRows(courseId, sections[0], dir);
      var b := LessonRows(courseId, sections[1..], dir);
      assert Map(a + b, LessonKey) == Map(a, LessonKey) + Map(b, LessonKey);
      assert Map(a, LessonKey) == LessonIds(sections[0]);
    }
  }

  lemma {:induction false} LessonRowsCourse(courseId: string, sections: seq<CourseSection>, dir: string)
    ensures forall k :: 0 <= k < |LessonRows(courseId, sections, dir)| ==> LessonRows(courseId, sections, dir)[k].courseId == courseId
    decreases |sections|
  {
    if |sections| > 0 {
      LessonRowsCourse(courseId, sections[1..], dir);
    }
  }

  /** Into a store with nothing of the course, the section rows are appended. */
  lemma DownloadAppendsSections(db: Db, c: Course, dir: string)
    requires FreshFor(db, c)
    ensures Download(db, c, dir).sections == db.sections + SectionRows(c)
  {
    var rows := SectionRows(c);
    assert Map(rows, SectionKey) == SectionIds(c);
    forall i, j | 0 <= i < |db.sections| && 0 <= j < |rows| ensures SectionKey(db.sections[i]) != SectionKey(rows[j]) {
      assert SectionIds(c)[j] == rows[j].id;
    }
    UpsertAllFresh(db.sections, rows, SectionKey);
  }

  /** Into a store with nothing of the course, the lesson rows are appended. */
  lemma DownloadAppendsLessons(db: Db, c: Course, dir: string)
    requires FreshFor(db, c)
    ensures Download(db, c, dir).lessons == db.lessons + LessonRows(c.id, c.sections, dir)
  {
    var rows := LessonRows(c.id, c.sections, dir);
    LessonRowKeys(c.id, c.sections, dir);
    forall i, j | 0 <= i < |db.lessons| && 0 <= j < |rows| ensures LessonKey(db.lessons[i]) != LessonKey(rows[j]) {
      assert AllLessonIds(c.sections)[j] == rows[j].id;
    }
    UpsertAllFresh(db.lessons, rows, LessonKey);
  }

  /** The rows of `sections[j]` are the only lesson rows filed under its id. */
  lemma {:induction false} LessonRowsOfSection(courseId: string, sections: seq<CourseSection>, dir: string, j: int)
    requires NoDup(Map(sections, (s: CourseSection) => s.id)) && 0 <= j < |sections|
    ensures Filter(LessonRows(courseId, sections, dir), (x: LessonRow) => x.sectionId == sections[j].id) ==
            SectionLessonRows(courseId, sections[j], dir)
    decreases |sections|
  {
    var p := (x: LessonRow) => x.sectionId == sections[j].id;
    var ids := Map(sections, (s: CourseSection) => s.id);
    var a := SectionLessonRows(courseId, sections[0], dir);
    var b := LessonRows(courseId, sections[1..], dir);
    FilterConcat(a, b, p);
    NoDupTail(ids);
    if j == 0 {
      FilterAll(a, p);
      LessonRowsOutside(courseId, sections[1..], dir, sections[0].id);
    } else {
      assert ids[0] != ids[j];
      FilterNone(a, p);
      assert Map(sections[1..], (s: CourseSection) => s.id) == ids[1..];
      LessonRowsOfSection(courseId, sections[1..], dir, j - 1);
    }
  }

  /** No lesson row is filed under an id none of the sections has. */
  lemma {:induction false} LessonRowsOutside(courseId: string, sections: seq<CourseSection>, dir: string, sectionId: string)
    requires sectionId !in Map(sections, (s: CourseSection) => s.id)
    ensures Filter(LessonRows(courseId, sections, dir), (x: LessonRow) => x.sectionId == sectionId) == []
    decreases |sections|
  {
    if |sections| > 0 {
      var p := (x: LessonRow) => x.sectionId == sectionId;
      var ids := Map(sections, (s: CourseSection) => s.id);
      assert ids[0] == sections[0].id;
      assert Map(sections[1..], (s: CourseSection) => s.id) == ids[1..];
      LessonRowsOutside(courseId, sections[1..], dir, sectionId);
      FilterNone(SectionLessonRows(courseId, sections[0], dir), p);
      FilterConcat(SectionLessonRows(courseId, sections[0], dir), LessonRows(courseId, sections[1..], dir), p);
    }
  }

  /** Filtering rows appended after rows that never match. */
  lemma FilterPastHead<T(!new)>(s: seq<T>, rows: seq<T>, p: T -> bool)
    requires forall i :: 0 <= i < |s| ==> !p(s[i])
    ensures Filter(s + rows, p) == Filter(rows, p)
  {
    FilterConcat(s, rows, p);
    FilterNone(s, p);
  }

  /** Filtering keeps every old row and drops every appended one. */
  lemma FilterKeepsHead<T(!new)>(s: seq<T>, rows: seq<T>, p: T -> bool)
    requires forall i :: 0 <= i < |s| ==> p(s[i])
    requires forall i :: 0 <= i < |rows| ==> !p(rows[i])
    ensures Filter(s + rows, p) == s
  {
    FilterConcat(s, rows, p);
    FilterAll(s, p);
    FilterNone(rows, p);
  }

  lemma SectionRowsSorted(c: Course)
    ensures SortedBy(SectionRows(c), SectionOrder)
  {
  }

  lemma DownloadedSectionRows(db: Db, c: Course, dir: string)
    requires FreshFor(db, c)
    ensures SectionsForCourse(Download(db, c, dir), c.id) == SectionRows(c)
  {
    DownloadAppendsSections(db, c, dir);
    var p := (x: SectionRow) => x.courseId == c.id;
    FilterPastHead(db.sections, SectionRows(c), p);
    FilterAll(SectionRows(c), p);
    SectionRowsSorted(c);
    SortBySortedIdentity(SectionRows(c), SectionOrder);
  }

  lemma DownloadedLessonRows(db: Db, c: Course, dir: string, i: int)
    requires FreshFor(db, c) && 0 <= i < |c.sections|
    ensures LessonsForSection(Download(db, c, dir), c.sections[i].id) == SectionLessonRows(c.id, c.sections[i], dir)
  {
    DownloadAppendsLessons(db, c, dir);
    var s := c.sections[i];
    var p := (x: LessonRow) => x.sectionId == s.id;
    assert SectionIds(c)[i] == s.id;
    FilterPastHead(db.lessons, LessonRows(c.id, c.sections, dir), p);
    LessonRowsOfSection(c.id, c.sections, dir, i);
    assert SortedBy(SectionLessonRows(c.id, s, dir), LessonOrder);
    SortBySortedIdentity(SectionLessonRows(c.id, s, dir), LessonOrder);
  }

  /** A lesson row decodes to the lesson with its downloaded media at their local paths. */
  lemma DecodedLesson(courseId: string, s: CourseSection, l: Lesson, k: int, dir: string)
    ensures DecodeLesson(LessonRowOf(courseId, s, l, k, dir)) == OfflineLesson(courseId, l, dir)
  {
  }

  lemma DecodedLessons(courseId: string, s: CourseSection, dir: string)
    ensures Map(SectionLessonRows(courseId, s, dir), DecodeLesson) == Map(s.lessons, (l: Lesson) => OfflineLesson(courseId, l, dir))
  {
    var rows := SectionLessonRows(courseId, s, dir);
    var a := Map(rows, DecodeLesson);
    var b := Map(s.lessons, (l: Lesson) => OfflineLesson(courseId, l, dir));
    forall k | 0 <= k < |s.lessons| ensures a[k] == b[k] {
      DecodedLesson(courseId, s, s.lessons[k], k, dir);
    }
  }

  lemma DecodedSection(db: Db, c: Course, dir: string, i: int)
    requires FreshFor(db, c) && 0 <= i < |c.sections|
    ensures DecodeSection(Download(db, c, dir), SectionRows(c)[i]) == OfflineSection(c.id, c.sections[i], dir)
  {
    DownloadedLessonRows(db, c, dir, i);
    DecodedLessons(c.id, c.sections[i], dir);
  }

  lemma DecodedSections(db: Db, c: Course, dir: string)
    requires FreshFor(db, c)
    ensures Map(SectionRows(c), (s: SectionRow) => DecodeSection(Download(db, c, dir), s)) ==
            Map(c.sections, (s: CourseSection) => OfflineSection(c.id, s, dir))
  {
    var decoded := Map(SectionRows(c), (s: SectionRow) => DecodeSection(Download(db, c, dir), s));
    var expected := Map(c.sections, (s: CourseSection) => OfflineSection(c.id, s, dir));
    forall i | 0 <= i < |c.sections| ensures decoded[i] == expected[i] {
      DecodedSection(db, c, dir, i);
    }
  }

  /**
   * Downloading a course into a store with nothing that clashes and loading
   * it back gives the course's offline copy.
   */
  lemma DownloadRoundTrip(db: Db, c: Course, dir: string, now: int)
    requires FreshFor(db, c)
    ensures DecodeCourse(Download(db, c, dir), CourseRowOf(c), now) == OfflineCopy(c, dir, now)
  {
    DownloadedSectionRows(db, c, dir);
    DecodedSections(db, c, dir);
  }

  /** After a download the course's row is in the store, so loading yields its offline copy. */
  lemma DownloadThenLoad(db: Db, c: Course, dir: string, now: int)
    requires FreshFor(db, c)
    ensures OfflineCopy(c, dir, now) in LoadDownloadedCourses(Download(db, c, dir), now)
  {
    var d := Download(db, c, dir);
    DownloadRoundTrip(db, c, dir, now);
    var k :| 0 <= k < |d.courses| && d.courses[k] == CourseRowOf(c);
    assert LoadDownloadedCourses(d, now)[k] == OfflineCopy(c, dir, now);
  }

  /** `removeDownloadedCourse`: the course's lesson rows, section rows and course row are deleted. */
  function RemoveDownloadedCourse(db: Db, courseId: string): (r: Db)
    ensures forall x :: x in r.courses <==> x in db.courses && x.id != courseId
    ensures forall x :: x in r.sections <==> x in db.sections && x.courseId != courseId
    ensures forall x :: x in r.lessons <==> x in db.lessons && x.courseId != courseId
  {
    DeleteCourseById(DeleteSectionsForCourse(DeleteLessonsForCourse(db, courseId), courseId), courseId)
  }

  /** Removing a course just downloaded into a store that held nothing of it restores the store. */
  lemma RemoveUndoesDownload(db: Db, c: Course, dir: string)
    requires FreshFor(db, c)
    requires forall i :: 0 <= i < |db.courses| ==> db.courses[i].id != c.id
    ensures RemoveDownloadedCourse(Download(db, c, dir), c.id) == db
  {
    UpsertFresh(db.courses, CourseRowOf(c), CourseKey);
    FilterKeepsHead(db.courses, [CourseRowOf(c)], (x: CourseRow) => x.id != c.id);
    DownloadAppendsSections(db, c, dir);
    FilterKeepsHead(db.sections, SectionRows(c), (x: SectionRow) => x.courseId != c.id);
    DownloadAppendsLessons(db, c, dir);
    LessonRowsCourse(c.id, c.sections, dir);
    FilterKeepsHead(db.lessons, LessonRows(c.id, c.sections, dir), (x: LessonRow) => x.courseId != c.id);
  }
}
