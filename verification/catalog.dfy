/**
 * The course catalogue on the two home screens and the two instructor
 * dashboards: the category list, the search and category filter, the chip
 * and dialog selection, the featured and continue-learning split, and the
 * dashboard's search and create dialog.
 */
module Catalog {
  import opened Wrappers
  import opened Seqs
  import opened Text
  import opened CourseModel
  import CourseEdits
  import ProgressStats

  // ---------------------------------------------------------------------
  // Categories and the filter
  // ---------------------------------------------------------------------

  function CategoryOf(c: Course): string
  {
    c.category
  }

  predicate NotBlank(s: string)
  {
    !IsBlank(s)
  }

  /** `categories`: the courses' categories without blanks and repeats, in first-appearance order. */
  function Categories(courses: seq<Course>): (r: seq<string>)
    ensures NoDup(r)
    ensures forall x :: x in r <==> !IsBlank(x) && exists k :: 0 <= k < |courses| && courses[k].category == x
    ensures IsSubsequence(r, Map(courses, CategoryOf))
  {
    var all := Map(courses, CategoryOf);
    var named := Filter(all, NotBlank);
    var r := Distinct(named);
    assert forall x :: x in all <==> exists k :: 0 <= k < |courses| && courses[k].category == x by {
      forall x | x in all ensures exists k :: 0 <= k < |courses| && courses[k].category == x {
        var k :| 0 <= k < |all| && all[k] == x;
        assert courses[k].category == x;
      }
      forall x | exists k :: 0 <= k < |courses| && courses[k].category == x ensures x in all {
        var k :| 0 <= k < |courses| && courses[k].category == x;
        assert all[k] == x;
      }
    }
    SubsequenceTransitive(r, named, all);
    r
  }

  /** The search part of the filter: a blank query, or the query in the title, instructor or category. */
  predicate MatchesQuery(c: Course, query: string)
  {
    IsBlank(query) || ContainsIgnoreCase(c.title, query) || ContainsIgnoreCase(c.instructor, query) ||
    ContainsIgnoreCase(c.category, query)
  }

  /** The student home screen's filter; no selected category is `None`. */
  predicate Matches(c: Course, query: string, category: Option<string>)
  {
    MatchesQuery(c, query) && (category.None? || c.category == category.value)
  }

  /** `filteredCourses`: the matching courses in their order. */
  function FilteredCourses(courses: seq<Course>, query: string, category: Option<string>): (r: seq<Course>)
    ensures forall x :: x in r <==> x in courses && Matches(x, query, category)
    ensures IsSubsequence(r, courses)
  {
    Filter(courses, (c: Course) => Matches(c, query, category))
  }

  /** With a blank query and no category the filter keeps every course. */
  lemma UnfilteredKeepsAll(courses: seq<Course>, query: string)
    requires IsBlank(query)
    ensures FilteredCourses(courses, query, None) == courses
  {
    FilterAll(courses, (c: Course) => Matches(c, query, None));
  }

  /** The other client's filter, where the empty (or blank) string means no category. */
  predicate MatchesBlankCategory(c: Course, query: string, category: string)
  {
    MatchesQuery(c, query) && (IsBlank(category) || c.category == category)
  }

  /** The two clients filter alike once a blank category is read as none. */
  lemma FiltersAgree(c: Course, query: string, category: string)
    ensures MatchesBlankCategory(c, query, category) == Matches(c, query, if IsBlank(category) then None else Some(category))
  {
  }

  // ---------------------------------------------------------------------
  // Selecting a category
  // ---------------------------------------------------------------------

  /** A category chip: clicking the selected chip clears the selection, any other selects it. */
  function ClickChip(selected: Option<string>, category: string): (r: Option<string>)
    ensures r == Some(category) <==> selected != Some(category)
    ensures r.None? <==> selected == Some(category)
  {
    if selected == Some(category) then None else Some(category)
  }

  /** The "All" chip clears the selection. */
  const AllChip: Option<string> := None

  /** Clicking a chip twice, starting from it being selected, leaves it selected again. */
  lemma ChipClickTwice(category: string)
    ensures ClickChip(ClickChip(Some(category), category), category) == Some(category)
    ensures ClickChip(ClickChip(AllChip, category), category) == AllChip
  {
  }

  /** The category dialog: the selection and whether the dialog is showing. */
  datatype CategoryDialog = CategoryDialog(selected: string, open: bool)

  /** Picking a category selects it and closes the dialog. */
  function PickCategory(d: CategoryDialog, category: string): (r: CategoryDialog)
    ensures r.selected == category && !r.open
  {
    CategoryDialog(category, false)
  }

  /** "Clear Filter" is offered only while a category is selected. */
  predicate ClearFilterShown(d: CategoryDialog)
  {
    !IsBlank(d.selected)
  }

  /** "Clear Filter" resets the selection to "" and closes the dialog. */
  function ClearFilter(d: CategoryDialog): (r: CategoryDialog)
    ensures r.selected == "" && !r.open && !ClearFilterShown(r)
  {
    CategoryDialog("", false)
  }

  /** After picking a non-blank category the clear button is offered, and clearing restores the unfiltered view. */
  lemma PickThenClear(d: CategoryDialog, category: string, c: Course, query: string)
    requires !IsBlank(category)
    ensures ClearFilterShown(PickCategory(d, category))
    ensures MatchesBlankCategory(c, query, ClearFilter(PickCategory(d, category)).selected) == MatchesQuery(c, query)
  {
  }

  // ---------------------------------------------------------------------
  // What the home screens list
  // ---------------------------------------------------------------------

  /** `take(3)`: the featured courses. */
  function Featured<T>(s: seq<T>): (r: seq<T>)
    ensures |r| == if |s| < 3 then |s| else 3
    ensures r == s[..|r|]
  {
    if |s| < 3 then s else s[..3]
  }

  /** `drop(3)`: the continue-learning courses. */
  function ContinueLearning<T>(s: seq<T>): (r: seq<T>)
    ensures |r| == if |s| < 3 then 0 else |s| - 3
  {
    if |s| < 3 then [] else s[3..]
  }

  /** Featured followed by continue-learning is the whole list, each entry once. */
  lemma FeaturedThenContinue<T>(s: seq<T>)
    ensures Featured(s) + ContinueLearning(s) == s
    ensures |Featured(s)| + |ContinueLearning(s)| == |s|
  {
    if |s| >= 3 {
      assert s[..3] + s[3..] == s;
    }
  }

  /**
   * The search results as written: with a non-blank query the screen lists
   * every course with its extras; `filteredCourses` is computed but never
   * shown.
   */
  function SearchResults(entries: seq<ProgressStats.CourseWithExtras>, query: string): (r: seq<ProgressStats.CourseWithExtras>)
    ensures |r| == |entries|
  {
    entries
  }

  /** A course that matches nothing is still listed for any query. */
  lemma SearchIgnoresQuery(entries: seq<ProgressStats.CourseWithExtras>, query: string)
    ensures forall x :: x in entries ==> x in SearchResults(entries, query)
    ensures SearchResults(entries, query) == SearchResults(entries, "")
  {
  }

  /** A concrete case: the query "zzz" still lists a course titled "Kotlin" by "Ann" in "Mobile". */
  lemma SearchListsNonMatching()
    ensures var c := NewCourse("c1", "Kotlin", "", "", "Ann", "", "Mobile", 0.0, 0);
            var e := ProgressStats.CourseWithExtras(c, 0, "Ann");
            !MatchesQuery(c, "zzz") && e in SearchResults([e], "zzz")
  {
    var c := NewCourse("c1", "Kotlin", "", "", "Ann", "", "Mobile", 0.0, 0);
    NoZCourseMissesQuery(c);
  }

  /** A course with no letter z in its title, instructor or category does not match the query "zzz". */
  lemma NoZCourseMissesQuery(c: Course)
    requires 'z' !in c.title && 'Z' !in c.title
    requires 'z' !in c.instructor && 'Z' !in c.instructor
    requires 'z' !in c.category && 'Z' !in c.category
    ensures !MatchesQuery(c, "zzz")
  {
    assert !IsBlank("zzz") by { assert !IsWhitespace("zzz"[0]); }
    NoZMissesQuery(c.title);
    NoZMissesQuery(c.instructor);
    NoZMissesQuery(c.category);
  }

  /** A string with no letter z in either case does not contain "zzz", ignoring case. */
  lemma NoZMissesQuery(s: string)
    requires 'z' !in s && 'Z' !in s
    ensures !ContainsIgnoreCase(s, "zzz")
  {
    assert Lower("zzz")[0] == 'z';
    forall i | 0 <= i < |Lower(s)| ensures Lower(s)[i] != 'z' {
      assert s[i] in s;
    }
    NotContained(Lower(s), Lower("zzz"));
  }

  /** A string without the letter 'z' does not contain a query that starts with it. */
  lemma {:induction false} NotContained(s: string, t: string)
    requires |t| > 0 && t[0] == 'z'
    requires forall i :: 0 <= i < |s| ==> s[i] != 'z'
    ensures !Contains(s, t)
    decreases |s|
  {
    if |s| > 0 {
      NotContained(s[1..], t);
    }
  }

  /** The search results the query evidently asks for: the entries whose course passes the filter. */
  function SearchResultsFiltered(entries: seq<ProgressStats.CourseWithExtras>, query: string,
                                 category: Option<string>): (r: seq<ProgressStats.CourseWithExtras>)
    ensures forall x :: x in r <==> x in entries && Matches(x.course, query, category)
    ensures IsSubsequence(r, entries)
  {
    Filter(entries, (e: ProgressStats.CourseWithExtras) => Matches(e.course, query, category))
  }

  /** The corrected list shows the filtered courses, in order, with their extras. */
  lemma FilteredSearchAgrees(entries: seq<ProgressStats.CourseWithExtras>, query: string, category: Option<string>)
    ensures Map(SearchResultsFiltered(entries, query, category), (e: ProgressStats.CourseWithExtras) => e.course) ==
            FilteredCourses(Map(entries, (e: ProgressStats.CourseWithExtras) => e.course), query, category)
  {
    FilterMapCommute(entries, (e: ProgressStats.CourseWithExtras) => e.course,
                     (c: Course) => Matches(c, query, category),
                     (e: ProgressStats.CourseWithExtras) => Matches(e.course, query, category));
  }

  /** "Continue Learning" is shown only while the enrolled list is non-empty. */
  predicate ContinueLearningShown(enrolled: seq<Course>)
  {
    |enrolled| > 0
  }

  // ---------------------------------------------------------------------
  // The instructor dashboard
  // ---------------------------------------------------------------------

  /** The dashboard's courses: those whose title or description contains the query, ignoring case, in order. */
  function DashboardCourses(courses: seq<Course>, query: string): (r: seq<Course>)
    ensures forall x :: x in r <==> x in courses && (ContainsIgnoreCase(x.title, query) || ContainsIgnoreCase(x.description, query))
    ensures IsSubsequence(r, courses)
  {
    Filter(courses, (c: Course) => ContainsIgnoreCase(c.title, query) || ContainsIgnoreCase(c.description, query))
  }

  /** The empty query shows every course. */
  lemma EmptyQueryShowsAll(courses: seq<Course>)
    ensures DashboardCourses(courses, "") == courses
  {
    forall k | 0 <= k < |courses| ensures ContainsIgnoreCase(courses[k].title, "") {
      assert IsPrefix(Lower(""), Lower(courses[k].title));
    }
    FilterAll(courses, (c: Course) => ContainsIgnoreCase(c.title, "") || ContainsIgnoreCase(c.description, ""));
  }

  /** Create is enabled only with a title, a description, a category and a chosen image. */
  predicate CreateEnabled(title: string, description: string, category: string, image: Option<string>)
  {
    !IsBlank(title) && !IsBlank(description) && image.Some? && !IsBlank(category)
  }

  /**
   * The dialog's Create: a course with no sections, the chosen image's
   * address (or "") and the signed-in user's id as its instructor.
   */
  function DashboardCreate(courseId: string, title: string, description: string, image: Option<string>,
                           category: string, userId: string, userName: string, createdAt: int): (r: Course)
    ensures r.sections == [] && r.instructor == userId && r.id == courseId
    ensures r.title == title && r.description == description && r.category == category
    ensures r.imageUrl == image.GetOr("")
  {
    CourseEdits.CreateCourse(courseId, title, description, userName, image.GetOr(""), [], userId, category, createdAt)
  }
}
