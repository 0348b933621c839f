/**
 * The course lists of the learnizone client: the card list adapter with
 * its text filter, progress filter and progress sort over a snapshot of
 * the courses it was built with, and the courses tab with its category
 * chips and search box over the fixed sample courses.
 */
module CourseList {
  import opened Seqs
  import opened Text
  import opened Sorting

  // ---------------------------------------------------------------------
  // The card list adapter
  // ---------------------------------------------------------------------

  /** A course as the card list shows it. */
  datatype ListedCourse = ListedCourse(title: string, category: string, progress: int)

  /** The shown list and the snapshot the filters start from. */
  datatype Adapter = Adapter(shown: seq<ListedCourse>, full: seq<ListedCourse>)

  /** A new adapter shows its courses and keeps a copy of them. */
  function NewAdapter(courses: seq<ListedCourse>): (r: Adapter)
    ensures r.shown == courses && r.full == courses
  {
    Adapter(courses, courses)
  }

  predicate MatchesText(c: ListedCourse, text: string)
  {
    ContainsIgnoreCase(c.title, text) || ContainsIgnoreCase(c.category, text)
  }

  /**
   * `filter`: the empty text shows the whole snapshot; any other text the
   * snapshot's courses whose title or category contains it, ignoring case.
   */
  function FilterText(a: Adapter, text: string): (r: Adapter)
    ensures r.full == a.full
    ensures text == "" ==> r.shown == a.full
    ensures text != "" ==> IsSubsequence(r.shown, a.full) &&
                           forall x :: x in r.shown <==> x in a.full && MatchesText(x, text)
  {
    if text == "" then a.(shown := a.full)
    else a.(shown := Filter(a.full, (c: ListedCourse) => MatchesText(c, text)))
  }

  /** `filterByProgress`: the snapshot's courses with at least the given progress, in order. */
  function FilterByProgress(a: Adapter, minProgress: int): (r: Adapter)
    ensures r.full == a.full
    ensures IsSubsequence(r.shown, a.full)
    ensures forall x :: x in r.shown <==> x in a.full && x.progress >= minProgress
  {
    a.(shown := Filter(a.full, (c: ListedCourse) => c.progress >= minProgress))
  }

  /** The sort key: larger progress first. */
  function ProgressDescending(c: ListedCourse): int
  {
    -c.progress
  }

  /**
   * `sortByProgress`: the shown courses reordered by non-increasing
   * progress; the snapshot is untouched.
   */
  function SortByProgress(a: Adapter): (r: Adapter)
    ensures r.full == a.full
    ensures multiset(r.shown) == multiset(a.shown)
    ensures forall i, j :: 0 <= i < j < |r.shown| ==> r.shown[i].progress >= r.shown[j].progress
  {
    var sorted := SortBy(a.shown, ProgressDescending);
    assert SortedBy(sorted, ProgressDescending);
    a.(shown := sorted)
  }

  /** The sort is stable: courses with equal progress keep their relative order. */
  lemma SortByProgressStable(a: Adapter, p: int)
    ensures Filter(SortByProgress(a).shown, (c: ListedCourse) => c.progress == p) ==
            Filter(a.shown, (c: ListedCourse) => c.progress == p)
  {
    SortByStableFor(a.shown, ProgressDescending, -p, (c: ListedCourse) => c.progress == p);
  }

  /** One of the list's operations. */
  datatype AdapterOp = TextFilter(text: string) | ProgressFilter(minProgress: int) | ProgressSort

  function Apply(a: Adapter, op: AdapterOp): Adapter
  {
    match op
    case TextFilter(t) => FilterText(a, t)
    case ProgressFilter(m) => FilterByProgress(a, m)
    case ProgressSort => SortByProgress(a)
  }

  function ApplyAll(a: Adapter, ops: seq<AdapterOp>): (r: Adapter)
    decreases |ops|
  {
    if |ops| == 0 then a else ApplyAll(Apply(a, ops[0]), ops[1..])
  }

  /** No operation ever changes the snapshot. */
  lemma {:induction false} SnapshotNeverChanges(courses: seq<ListedCourse>, ops: seq<AdapterOp>)
    ensures ApplyAll(NewAdapter(courses), ops).full == courses
  {
    SnapshotKept(NewAdapter(courses), ops);
  }

  lemma {:induction false} SnapshotKept(a: Adapter, ops: seq<AdapterOp>)
    ensures ApplyAll(a, ops).full == a.full
    decreases |ops|
  {
    if |ops| > 0 {
      SnapshotKept(Apply(a, ops[0]), ops[1..]);
    }
  }

  /**
   * The filters are not cumulative: after any operations, filtering by text
   * or progress gives what it would give on the fresh adapter, and the empty
   * text restores the original list.
   */
  lemma FiltersNotCumulative(courses: seq<ListedCourse>, ops: seq<AdapterOp>, text: string, m: int)
    ensures FilterText(ApplyAll(NewAdapter(courses), ops), text) == FilterText(NewAdapter(courses), text)
    ensures FilterByProgress(ApplyAll(NewAdapter(courses), ops), m) == FilterByProgress(NewAdapter(courses), m)
    ensures FilterText(ApplyAll(NewAdapter(courses), ops), "").shown == courses
  {
    SnapshotNeverChanges(courses, ops);
  }

  // ---------------------------------------------------------------------
  // The courses tab
  // ---------------------------------------------------------------------

  datatype Category = Category(id: string, name: string)

  datatype SampleCourse = SampleCourse(id: string, title: string, category: string)

  /** The category chips. */
  const SampleCategories: seq<Category> := [
    Category("1", "Programmation"), Category("2", "Design"), Category("3", "Marketing"),
    Category("4", "Business"), Category("5", "Photographie"), Category("6", "Musique")]

  const JavaScriptBasics := SampleCourse("1", "Les bases de la programmation JavaScript", "Programmation")
  const PhotographyBasics := SampleCourse("2", "Photographie pour débutants: Maîtriser les fondamentaux", "Photographie")
  const TimeManagement := SampleCourse("3", "Gestion du temps et productivité", "Business")
  const ReactDevelopment := SampleCourse("4", "Développement web avec React", "Programmation")
  const LearningToLearn := SampleCourse("5", "Apprendre à apprendre: Techniques d'apprentissage efficaces", "Éducation")
  const InterfaceDesign := SampleCourse("6", "Les fondements du design d'interface utilisateur", "Design")

  /** The courses every filter starts from. */
  const SampleCourses: seq<SampleCourse> :=
    [JavaScriptBasics, PhotographyBasics, TimeManagement, ReactDevelopment, LearningToLearn, InterfaceDesign]

  /** A category chip: the sample courses whose category is exactly the chip's name, in order. */
  function ByCategory(category: Category): (r: seq<SampleCourse>)
    ensures IsSubsequence(r, SampleCourses)
    ensures forall x :: x in r <==> x in SampleCourses && x.category == category.name
  {
    Filter(SampleCourses, (c: SampleCourse) => c.category == category.name)
  }

  /** A submitted query: the sample courses whose title contains it, ignoring case, in order. */
  function ByQuery(query: string): (r: seq<SampleCourse>)
    ensures IsSubsequence(r, SampleCourses)
    ensures forall x :: x in r <==> x in SampleCourses && ContainsIgnoreCase(x.title, query)
  {
    Filter(SampleCourses, (c: SampleCourse) => ContainsIgnoreCase(c.title, query))
  }

  /** What the tab reacts to. */
  datatype TabEvent = ChipClicked(category: Category) | QuerySubmitted(query: string) | QueryChanged(text: string)

  /** The list after an event: chips and submits filter the samples, clearing the text shows them all, other edits do nothing. */
  function OnEvent(shown: seq<SampleCourse>, e: TabEvent): (r: seq<SampleCourse>)
    ensures e.QueryChanged? && e.text != "" ==> r == shown
    ensures e.QueryChanged? && e.text == "" ==> r == SampleCourses
    ensures !e.QueryChanged? ==> IsSubsequence(r, SampleCourses)
  {
    match e
    case ChipClicked(c) => ByCategory(c)
    case QuerySubmitted(q) => ByQuery(q)
    case QueryChanged(t) => if t == "" then SampleCourses else shown
  }

  /** A chip or a submit forgets every earlier filter: the list depends only on the last of them. */
  lemma LastFilterWins(shown1: seq<SampleCourse>, shown2: seq<SampleCourse>, e: TabEvent)
    requires !e.QueryChanged?
    ensures OnEvent(shown1, e) == OnEvent(shown2, e)
  {
  }

  /** The "Programmation" chip lists courses "1" and "4", in that order. */
  lemma ProgrammationChip()
    ensures var r := ByCategory(SampleCategories[0]);
            |r| == 2 && r[0].id == "1" && r[1].id == "4"
  {
    ProgrammationFilter(SampleCategories[0]);
  }

  /** Any chip named "Programmation" lists the JavaScript and React courses. */
  lemma ProgrammationFilter(c: Category)
    requires c.name == "Programmation"
    ensures ByCategory(c) == [JavaScriptBasics, ReactDevelopment]
  {
    var p := (x: SampleCourse) => x.category == c.name;
    assert !p(InterfaceDesign) && !p(LearningToLearn) && !p(TimeManagement) && !p(PhotographyBasics);
    assert Filter([InterfaceDesign], p) == [];
    assert Filter([LearningToLearn, InterfaceDesign], p) == [];
    assert Filter([ReactDevelopment, LearningToLearn, InterfaceDesign], p) == [ReactDevelopment];
    assert Filter([TimeManagement, ReactDevelopment, LearningToLearn, InterfaceDesign], p) == [ReactDevelopment];
    assert SampleCourses[1..] == [PhotographyBasics, TimeManagement, ReactDevelopment, LearningToLearn, InterfaceDesign];
    assert Filter(SampleCourses[1..], p) == [ReactDevelopment];
    assert p(SampleCourses[0]);
  }

  /** Course "5" is in "Éducation", which has no chip, so no chip lists it. */
  lemma EducationHasNoChip()
    ensures forall k :: 0 <= k < |SampleCategories| ==> SampleCourses[4] !in ByCategory(SampleCategories[k])
  {
    forall k | 0 <= k < |SampleCategories| ensures SampleCategories[k].name != SampleCourses[4].category {
      assert SampleCategories[k].name[0] != 'É';
    }
  }
}
