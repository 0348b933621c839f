/**
 * The learnizone Firebase client's course data: the course record and its
 * constructor, the section and subsection maps the repository writes into
 * a course's "modules" field, the repository's ownership checks and title
 * search, the module list adapter, and the placeholder data provider.
 *
 * Firestore documents are values: the courses collection is a map from
 * document id to course, a section is the record of the map the
 * repository writes.  Whether a remote call succeeds is a parameter.
 */
module Learnizone {
  import opened Wrappers
  import opened Seqs
  import opened Text

  // ---------------------------------------------------------------------
  // The course record
  // ---------------------------------------------------------------------

  datatype Format = Video | Audio | TextFormat | QuizFormat

  /** A subsection map: "id", "title", "content" and "type". */
  datatype Subsection = Subsection(id: string, title: string, content: string, kind: string)

  /** A section map; a section written without a "subsections" entry has `None` there. */
  datatype SectionMap = SectionMap(id: string, title: string, description: string, order: int,
                                   subsections: Option<seq<Subsection>>)

  /** A note map in "userNotes". */
  datatype UserNote = UserNote(fields: map<string, string>)

  /** The course record; `rating` is a Java `double`, stored and never computed with. */
  datatype LearnCourse = LearnCourse(
    id: string,
    title: string,
    category: string,
    imageUrl: string,
    duration: string,
    rating: real,
    difficulty: string,
    description: string,
    progress: int,
    prerequisites: seq<string>,
    learningObjectives: seq<string>,
    modules: seq<SectionMap>,
    isDownloaded: bool,
    tags: Option<seq<string>>,
    instructor: string,
    totalStudents: int,
    supportedFormats: seq<Format>,
    completedSections: seq<string>,
    userNotes: seq<UserNote>)

  const AllFormats: seq<Format> := [Video, Audio, TextFormat, QuizFormat]

  /**
   * The full constructor: its arguments are stored as given; a new course
   * has no progress, is not downloaded, has no students, supports every
   * format and has no completed sections or notes.
   */
  function NewLearnCourse(id: string, title: string, category: string, imageUrl: string, duration: string,
                          rating: real, difficulty: string, description: string, prerequisites: seq<string>,
                          learningObjectives: seq<string>, modules: seq<SectionMap>, instructor: string): (r: LearnCourse)
    ensures r.id == id && r.title == title && r.category == category && r.imageUrl == imageUrl
    ensures r.duration == duration && r.rating == rating && r.difficulty == difficulty && r.description == description
    ensures r.prerequisites == prerequisites && r.learningObjectives == learningObjectives && r.modules == modules
    ensures r.instructor == instructor
    ensures r.progress == 0 && !r.isDownloaded && r.totalStudents == 0
    ensures r.supportedFormats == AllFormats && |r.supportedFormats| == 4
    ensures r.completedSections == [] && r.userNotes == []
  {
    LearnCourse(id, title, category, imageUrl, duration, rating, difficulty, description, 0, prerequisites,
                learningObjectives, modules, false, None, instructor, 0, AllFormats, [], [])
  }

  /** The text every course's description getter returns. */
  const PlaceholderDescription :=
    "Apprenez les fondamentaux de JavaScript, le langage de programmation le plus populaire pour le " +
    "développement web. Ce cours vous donnera une base solide pour créer des applications web interactives."

  /** `getDescription` as written: the placeholder, whatever the course holds. */
  function GetDescription(c: LearnCourse): (r: string)
    ensures r == PlaceholderDescription
  {
    PlaceholderDescription
  }

  /** Whatever description a course is built with, its getter reads back the placeholder. */
  lemma DescriptionNotReadBack(id: string, title: string, category: string, imageUrl: string, description: string,
                               instructor: string)
    requires description != PlaceholderDescription
    ensures var c := NewLearnCourse(id, title, category, imageUrl, "0", 0.0, "Beginner", description, [], [], [], instructor);
            c.description == description && GetDescription(c) != c.description
  {
  }

  /** The getter the stored field evidently calls for: the description the course was built with. */
  function StoredDescription(c: LearnCourse): string
  {
    c.description
  }

  /** With the corrected getter, every description reads back as built. */
  lemma DescriptionReadBack(id: string, title: string, category: string, imageUrl: string, description: string,
                            instructor: string)
    ensures StoredDescription(NewLearnCourse(id, title, category, imageUrl, "0", 0.0, "Beginner", description,
                                             [], [], [], instructor)) == description
  {
  }

  // ---------------------------------------------------------------------
  // Sections and subsections
  // ---------------------------------------------------------------------

  /** The section record the sections screen builds. */
  datatype CourseSection = CourseSection(id: string, title: string, description: string, order: int)

  /** The map `addSectionToCourse` writes: the section's fields and an empty "subsections" list. */
  function SectionData(s: CourseSection): (r: SectionMap)
    ensures r.id == s.id && r.title == s.title && r.description == s.description && r.order == s.order
    ensures r.subsections == Some([])
  {
    SectionMap(s.id, s.title, s.description, s.order, Some([]))
  }

  /** The value of a course document's "modules" field: a list of section maps, or a single map. */
  datatype ModulesField = SectionList(sections: seq<SectionMap>) | SingleSection(section: SectionMap)

  /** Reading the field back as the course's list of maps: a single map is not a list. */
  function ReadModules(f: ModulesField): (r: Option<seq<SectionMap>>)
    ensures r.Some? <==> f.SectionList?
  {
    match f
    case SectionList(s) => Some(s)
    case SingleSection(_) => None
  }

  /** `addSectionToCourse` as written: the field is overwritten with the new section's map alone. */
  function AddSectionToCourse(field: ModulesField, s: CourseSection): (r: ModulesField)
    ensures r.SingleSection? && r.section == SectionData(s)
  {
    SingleSection(SectionData(s))
  }

  /**
   * Adding a section to a course that has sections loses them: the field
   * no longer holds a list, so none of the earlier sections can be read back.
   */
  lemma AddSectionLosesSections(sections: seq<SectionMap>, s: CourseSection)
    requires |sections| > 0
    ensures ReadModules(AddSectionToCourse(SectionList(sections), s)).None?
    ensures AddSectionToCourse(SectionList(sections), s) == AddSectionToCourse(SectionList([]), s)
  {
  }

  /** The evident intent: the new section's map is appended to the course's list. */
  function AddSectionAppended(field: ModulesField, s: CourseSection): (r: ModulesField)
    requires field.SectionList?
    ensures r.SectionList? && |r.sections| == |field.sections| + 1
    ensures r.sections[..|field.sections|] == field.sections && r.sections[|field.sections|] == SectionData(s)
  {
    SectionList(field.sections + [SectionData(s)])
  }

  /** Sections numbered by position: the k-th section has order k. */
  predicate OrderedByPosition(sections: seq<SectionMap>)
  {
    forall k :: 0 <= k < |sections| ==> sections[k].order == k
  }

  /**
   * With the corrected write, a section whose order is the number of
   * sections shown (as the sections screen assigns it) keeps every section
   * readable and the numbering by position.
   */
  lemma AppendKeepsNumbering(sections: seq<SectionMap>, id: string, title: string, description: string)
    requires OrderedByPosition(sections)
    ensures var r := ReadModules(AddSectionAppended(SectionList(sections), CourseSection(id, title, description, |sections|)));
            r.Some? && OrderedByPosition(r.value) && r.value[..|sections|] == sections
  {
  }

  /** The index of the first section with the id, or -1. */
  function FirstSectionWithId(modules: seq<SectionMap>, sectionId: string): (r: int)
    ensures -1 <= r < |modules|
    ensures r >= 0 ==> modules[r].id == sectionId && forall j :: 0 <= j < r ==> modules[j].id != sectionId
    ensures r == -1 <==> forall j :: 0 <= j < |modules| ==> modules[j].id != sectionId
  {
    IndexWhere(modules, (m: SectionMap) => m.id == sectionId)
  }

  const CourseNotFound := "Course not found"

  /**
   * `addSubsectionToSection`: the subsection is appended to the first
   * section with the id (whose list is created if it has none); the other
   * sections are untouched, and with no such section nothing changes.  A
   * missing course fails.
   */
  function AddSubsectionToSection(course: Option<LearnCourse>, sectionId: string, sub: Subsection): (r: Result<seq<SectionMap>>)
    ensures course.None? <==> r == Failure(CourseNotFound)
    ensures course.Some? ==> r.Success? && |r.value| == |course.value.modules|
    ensures course.Some? ==>
              var ms := course.value.modules;
              var i := FirstSectionWithId(ms, sectionId);
              forall k :: 0 <= k < |ms| && k != i ==> r.value[k] == ms[k]
    ensures course.Some? ==>
              var ms := course.value.modules;
              var i := FirstSectionWithId(ms, sectionId);
              i >= 0 ==> r.value[i] == ms[i].(subsections := Some(ms[i].subsections.GetOr([]) + [sub]))
  {
    match course
    case None => Failure(CourseNotFound)
    case Some(c) =>
      var i := FirstSectionWithId(c.modules, sectionId);
      if i < 0 then Success(c.modules)
      else
        var m := c.modules[i];
        Success(c.modules[i := m.(subsections := Some(m.subsections.GetOr([]) + [sub]))])
  }

  /** The subsections of a section, an absent list read as empty. */
  function SubsectionsOf(m: SectionMap): seq<Subsection>
  {
    m.subsections.GetOr([])
  }

  /** After adding, the first section with the id ends with the new subsection and has one more. */
  lemma SubsectionLandsLast(c: LearnCourse, sectionId: string, sub: Subsection, k: int)
    requires 0 <= k < |c.modules| && c.modules[k].id == sectionId
    ensures var r := AddSubsectionToSection(Some(c), sectionId, sub).value;
            exists i :: 0 <= i <= k && r[i].id == sectionId &&
                        SubsectionsOf(r[i]) == SubsectionsOf(c.modules[i]) + [sub]
  {
    var i := FirstSectionWithId(c.modules, sectionId);
    assert i >= 0;
  }

  // ---------------------------------------------------------------------
  // Ownership checks
  // ---------------------------------------------------------------------

  /** The courses collection, by document id. */
  type Courses = map<string, LearnCourse>

  const NotInstructorUpdate := "Only the course instructor can update the course"
  const NotInstructorDelete := "Only the course instructor can delete the course"

  /** The current user teaches the course. */
  predicate IsInstructor(c: LearnCourse, userId: string)
  {
    c.instructor == userId
  }

  /**
   * `updateCourse`: the record passed in must name the user as its instructor.
   * The stored record under the same id is never read, so the check does not
   * say who teaches the course being overwritten.
   */
  function UpdateCourse(store: Courses, c: LearnCourse, userId: string): (r: Result<Courses>)
    ensures r.Success? <==> IsInstructor(c, userId)
    ensures r.Success? ==> c.id in r.value && r.value[c.id] == c &&
                           forall id :: id != c.id ==> (id in r.value <==> id in store)
    ensures r.Success? ==> r.value.Keys == store.Keys + {c.id} &&
                           forall id :: id in store && id != c.id ==> r.value[id] == store[id]
    ensures r.Failure? ==> r.error == NotInstructorUpdate
  {
    if !IsInstructor(c, userId) then Failure(NotInstructorUpdate)
    else Success(store[c.id := c])
  }

  /** A user who does not teach a stored course overwrites it by passing a record that names themselves. */
  lemma NonInstructorOverwrites(store: Courses, c: LearnCourse, userId: string)
    requires c.id in store && !IsInstructor(store[c.id], userId) && IsInstructor(c, userId)
    ensures UpdateCourse(store, c, userId).Success?
    ensures UpdateCourse(store, c, userId).value[c.id] == c
    ensures UpdateCourse(store, c, userId).value[c.id].instructor != store[c.id].instructor
  {
  }

  /** A concrete takeover: "mallory" replaces the course that "alice" teaches. */
  lemma NonInstructorOverwritesExample()
    ensures var store := map["c1" := NewLearnCourse("c1", "Kotlin", "", "", "", 0.0, "", "intro", [], [], [], "alice")];
            var forged := NewLearnCourse("c1", "Mine", "", "", "", 0.0, "", "", [], [], [], "mallory");
            !IsInstructor(store["c1"], "mallory") &&
            UpdateCourse(store, forged, "mallory") == Success(map["c1" := forged])
  {
    var store := map["c1" := NewLearnCourse("c1", "Kotlin", "", "", "", 0.0, "", "intro", [], [], [], "alice")];
    var forged := NewLearnCourse("c1", "Mine", "", "", "", 0.0, "", "", [], [], [], "mallory");
    assert store["c1" := forged] == map["c1" := forged];
  }

  /**
   * The update as evidently intended: the user must teach the record passed in
   * and, when the id is already stored, the stored course as well.
   */
  function UpdateCourseChecked(store: Courses, c: LearnCourse, userId: string): (r: Result<Courses>)
    ensures r.Success? <==> IsInstructor(c, userId) && (c.id in store ==> IsInstructor(store[c.id], userId))
    ensures r.Success? ==> r.value.Keys == store.Keys + {c.id} && r.value[c.id] == c &&
                           forall id :: id in store && id != c.id ==> r.value[id] == store[id]
    ensures r.Failure? ==> r.error == NotInstructorUpdate
  {
    if !IsInstructor(c, userId) || (c.id in store && !IsInstructor(store[c.id], userId)) then Failure(NotInstructorUpdate)
    else Success(store[c.id := c])
  }

  /** The checked update agrees with the one as written on new ids and on the user's own courses. */
  lemma CheckedUpdateAgrees(store: Courses, c: LearnCourse, userId: string)
    ensures (c.id !in store || IsInstructor(store[c.id], userId)) ==>
              UpdateCourseChecked(store, c, userId) == UpdateCourse(store, c, userId)
    ensures UpdateCourseChecked(store, c, userId).Success? ==> UpdateCourse(store, c, userId).Success?
  {
  }

  /** `deleteCourse`: a missing course fails first, then anyone but its instructor is refused. */
  function DeleteCourse(store: Courses, courseId: string, userId: string): (r: Result<Courses>)
    ensures courseId !in store ==> r == Failure(CourseNotFound)
    ensures r.Success? <==> courseId in store && IsInstructor(store[courseId], userId)
    ensures courseId in store && !IsInstructor(store[courseId], userId) ==> r == Failure(NotInstructorDelete)
    ensures r.Success? ==> courseId !in r.value && forall id :: id != courseId && id in store ==> id in r.value
    ensures r.Success? ==> r.value.Keys == store.Keys - {courseId} &&
                           forall id :: id in r.value ==> r.value[id] == store[id]
  {
    if courseId !in store then Failure(CourseNotFound)
    else if !IsInstructor(store[courseId], userId) then Failure(NotInstructorDelete)
    else Success(store - {courseId})
  }

  /** Writing a course under a new id and then deleting it, as its instructor, gives back the collection. */
  lemma DeleteUndoesNewCourse(store: Courses, c: LearnCourse, userId: string)
    requires c.id !in store && IsInstructor(c, userId)
    ensures var added := UpdateCourseChecked(store, c, userId);
            added.Success? && added == UpdateCourse(store, c, userId) &&
            DeleteCourse(added.value, c.id, userId) == Success(store)
  {
    var added := UpdateCourseChecked(store, c, userId).value;
    var removed := DeleteCourse(added, c.id, userId).value;
    assert removed.Keys == store.Keys;
    assert forall id :: id in store ==> removed[id] == store[id];
    assert removed == store;
  }

  /**
   * Under the checked update, someone who does not teach a stored course can
   * neither overwrite nor delete it, whatever record they pass.
   */
  lemma OnlyInstructorChangesCourse(store: Courses, c: LearnCourse, courseId: string, userId: string)
    requires courseId in store && !IsInstructor(store[courseId], userId)
    requires c.id == courseId
    ensures UpdateCourseChecked(store, c, userId).Failure? && DeleteCourse(store, courseId, userId).Failure?
  {
  }

  // ---------------------------------------------------------------------
  // Title search
  // ---------------------------------------------------------------------

  /** The upper bound character of the search range, U+F8FF. */
  const HighChar: char := '\U{F8FF}'

  /** Firestore's order on strings: character by character, a proper prefix first. */
  predicate LexLe(a: string, b: string)
    decreases |a|
  {
    |a| == 0 || (|b| > 0 && (a[0] < b[0] || (a[0] == b[0] && LexLe(a[1..], b[1..]))))
  }

  /** `searchCourses`' range: titles from the term up to the term followed by U+F8FF. */
  predicate InSearchRange(term: string, title: string)
  {
    LexLe(term, title) && LexLe(title, term + [HighChar])
  }

  /** The courses whose title is in the search range, in collection order. */
  function SearchCourses(courses: seq<LearnCourse>, term: string): (r: seq<LearnCourse>)
    ensures IsSubsequence(r, courses)
    ensures forall c :: c in r <==> c in courses && InSearchRange(term, c.title)
  {
    Filter(courses, (c: LearnCourse) => InSearchRange(term, c.title))
  }

  /**
   * The range is a prefix match: a title is found exactly when it starts
   * with the term and what follows is nothing, starts below U+F8FF, or is
   * U+F8FF alone.
   */
  lemma {:induction false} SearchRangeIsPrefix(term: string, title: string)
    ensures InSearchRange(term, title) <==>
              IsPrefix(term, title) &&
              (|title| == |term| || title[|term|] < HighChar || title[|term|..] == [HighChar])
    decreases |term|
  {
    if |term| == 0 {
      assert term + [HighChar] == [HighChar];
      if |title| > 0 && title[0] == HighChar {
        assert LexLe(title, [HighChar]) <==> LexLe(title[1..], []);
        assert title[0..] == title;
        assert |title| == 1 ==> title == [HighChar];
      }
      assert title[0..] == title;
    } else if |title| > 0 && title[0] == term[0] {
      SearchRangeIsPrefix(term[1..], title[1..]);
      assert (term + [HighChar])[1..] == term[1..] + [HighChar];
      if |term| <= |title| {
        assert title[1..][|term[1..]|..] == title[|term|..];
      }
      assert IsPrefix(term, title) <==> IsPrefix(term[1..], title[1..]);
    }
  }

  /** Every course whose title starts with the term, followed only by characters below U+F8FF, is found. */
  lemma SearchFindsPrefixed(courses: seq<LearnCourse>, term: string, c: LearnCourse)
    requires c in courses && IsPrefix(term, c.title)
    requires forall i :: |term| <= i < |c.title| ==> c.title[i] < HighChar
    ensures c in SearchCourses(courses, term)
  {
    SearchRangeIsPrefix(term, c.title);
  }

  // ---------------------------------------------------------------------
  // The module list adapter
  // ---------------------------------------------------------------------

  datatype LearnModule = LearnModule(id: string, title: string, duration: string, isCompleted: bool, isLocked: bool)

  /** The adapter's modules and whether a click listener was given. */
  datatype ModuleList = ModuleList(modules: seq<LearnModule>, hasListener: bool)

  /** The one-argument constructor: no listener. */
  function NewModuleList(modules: seq<LearnModule>): (r: ModuleList)
    ensures r.modules == modules && !r.hasListener
  {
    ModuleList(modules, false)
  }

  /** The two-argument constructor. */
  function NewModuleListWithListener(modules: seq<LearnModule>): (r: ModuleList)
    ensures r.modules == modules && r.hasListener
  {
    ModuleList(modules, true)
  }

  /** The list's row count. */
  function ItemCount(a: ModuleList): (r: nat)
    ensures r == |a.modules|
  {
    |a.modules|
  }

  /** The position a row reports when it is not bound. */
  const NoPosition := -1

  /** A row click: the module passed to the listener, if the click is forwarded. */
  function ClickRow(a: ModuleList, position: int): (r: Option<LearnModule>)
    requires position == NoPosition || 0 <= position < ItemCount(a)
    ensures r.Some? <==> position != NoPosition && a.hasListener && !a.modules[position].isLocked
    ensures r.Some? ==> r.value == a.modules[position]
  {
    if position != NoPosition && a.hasListener && !a.modules[position].isLocked then Some(a.modules[position])
    else None
  }

  /** An adapter built without a listener never forwards a click. */
  lemma NoListenerNoClicks(modules: seq<LearnModule>, position: int)
    requires position == NoPosition || 0 <= position < |modules|
    ensures ClickRow(NewModuleList(modules), position).None?
  {
  }

  datatype ModuleStatus = CompletedIcon | LockedIcon | DefaultIcon

  /** The status icon: completed wins over locked, locked over the default circle. */
  function StatusOf(m: LearnModule): (r: ModuleStatus)
    ensures r == CompletedIcon <==> m.isCompleted
    ensures r == LockedIcon <==> !m.isCompleted && m.isLocked
    ensures r == DefaultIcon <==> !m.isCompleted && !m.isLocked
  {
    if m.isCompleted then CompletedIcon
    else if m.isLocked then LockedIcon
    else DefaultIcon
  }

  /** A module both completed and locked shows the completed icon, yet its clicks are not forwarded. */
  lemma CompletedButLocked(a: ModuleList, position: int)
    requires 0 <= position < |a.modules| && a.modules[position].isCompleted && a.modules[position].isLocked
    ensures StatusOf(a.modules[position]) == CompletedIcon && ClickRow(a, position).None?
  {
  }

  // ---------------------------------------------------------------------
  // The data provider
  // ---------------------------------------------------------------------

  /** Every list the provider offers is empty. */
  function AllCourses(): (r: seq<LearnCourse>)
    ensures r == []
  {
    []
  }

  function CoursesInProgress(): (r: seq<LearnCourse>)
    ensures r == []
  {
    []
  }

  function RecommendedCourses(): (r: seq<LearnCourse>)
    ensures r == []
  {
    []
  }

  function PopularCourses(): (r: seq<LearnCourse>)
    ensures r == []
  {
    []
  }

  /** The first course with the id, or `None`. */
  function CourseById(courses: seq<LearnCourse>, courseId: string): (r: Option<LearnCourse>)
    ensures r.None? <==> forall k :: 0 <= k < |courses| ==> courses[k].id != courseId
    ensures r.Some? ==> exists k :: 0 <= k < |courses| && courses[k] == r.value && r.value.id == courseId &&
                                    forall j :: 0 <= j < k ==> courses[j].id != courseId
  {
    var i := IndexWhere(courses, (c: LearnCourse) => c.id == courseId);
    if i < 0 then None else Some(courses[i])
  }

  /** `getCourseById` looks in the provider's list of all courses. */
  function GetCourseById(courseId: string): Option<LearnCourse>
  {
    CourseById(AllCourses(), courseId)
  }

  /** Since that list is empty, no id is ever found. */
  lemma GetCourseByIdNeverFinds(courseId: string)
    ensures GetCourseById(courseId).None?
  {
  }
}
