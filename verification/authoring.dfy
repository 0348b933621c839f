/**
 * The learnizone teacher's authoring screens: creating a course (with its
 * domain picker), listing and adding a course's sections, adding a
 * subsection, and picking or adding a domain.  Each screen reads trimmed
 * input, checks it in order, and builds the record the repository writes;
 * the remote writes themselves are parameters.
 */
module Authoring {
  import opened Wrappers
  import opened Seqs
  import opened Text
  import opened Learnizone
  import Validation

  // ---------------------------------------------------------------------
  // Domains
  // ---------------------------------------------------------------------

  datatype DomainItem = DomainItem(id: string, name: string, description: string, iconUrl: string)

  /** The domains written when the collection is found empty. */
  const DefaultDomains: seq<DomainItem> := [
    DomainItem("", "Informatique", "Domaines liés à l'informatique et aux technologies", ""),
    DomainItem("", "Mathématiques", "Domaines liés aux mathématiques et aux sciences", ""),
    DomainItem("", "Langues", "Domaines liés aux langues et à la communication", ""),
    DomainItem("", "Sciences", "Domaines liés aux sciences naturelles", ""),
    DomainItem("", "Arts", "Domaines liés aux arts et à la créativité", "")]

  /** What the create-course screen does with a loaded domain list. */
  datatype DomainsStep = AddDefaultsAndReload | ShowDomains(domains: seq<DomainItem>)

  /** An empty list triggers writing the defaults and loading again; any other list is shown. */
  function OnDomainsLoaded(domains: seq<DomainItem>): (r: DomainsStep)
    ensures r == AddDefaultsAndReload <==> |domains| == 0
    ensures r.ShowDomains? ==> r.domains == domains
  {
    if |domains| == 0 then AddDefaultsAndReload else ShowDomains(domains)
  }

  /** Once the defaults are stored, the reload shows them and asks for nothing more. */
  lemma DefaultsStopReloading(assignedIds: seq<string>)
    requires |assignedIds| == |DefaultDomains|
    ensures var stored := seq(|DefaultDomains|, k requires 0 <= k < |DefaultDomains| => DefaultDomains[k].(id := assignedIds[k]));
            OnDomainsLoaded(stored) == ShowDomains(stored) && |stored| == 5
  {
  }

  /** The domain dropdown: its text and whether the list under it is showing. */
  datatype DomainDropdown = DomainDropdown(text: string, listVisible: bool)

  /** Clicking the dropdown shows the list. */
  function OpenDropdown(d: DomainDropdown): (r: DomainDropdown)
    ensures r.listVisible && r.text == d.text
  {
    d.(listVisible := true)
  }

  /** Picking a domain copies its name into the dropdown and hides the list. */
  function PickDomain(d: DomainDropdown, domain: DomainItem): (r: DomainDropdown)
    ensures r.text == domain.name && !r.listVisible
  {
    DomainDropdown(domain.name, false)
  }

  // ---------------------------------------------------------------------
  // Creating a course
  // ---------------------------------------------------------------------

  datatype CourseField = TitleField | DescriptionField | DomainField

  /** Pressing Create: mark a field, or save the new course. */
  datatype CreateStep = CreateFieldError(field: CourseField, message: string) | SaveCourse(course: LearnCourse)

  const TitleRequired := "Title is required"
  const DescriptionRequired := "Description is required"
  const DomainRequired := "Domain is required"

  /**
   * `createCourse`: title, description and domain are required, in that
   * order, after trimming; the image address may be empty.  The new course
   * is a beginner course of duration "0", rating 0, no prerequisites,
   * objectives or sections, taught by the signed-in user.
   */
  function CreateCourse(title: string, description: string, imageUrl: string, domain: string, userId: string,
                        courseId: string): (r: CreateStep)
    ensures r.SaveCourse? <==> Trim(title) != "" && Trim(description) != "" && Trim(domain) != ""
    ensures r.CreateFieldError? ==> (r.field == TitleField <==> Trim(title) == "")
    ensures r.CreateFieldError? ==> (r.field == DomainField <==> Trim(title) != "" && Trim(description) != "")
    ensures r.SaveCourse? ==>
              var c := r.course;
              c.id == courseId && c.title == Trim(title) && c.description == Trim(description) &&
              c.category == Trim(domain) && c.imageUrl == Trim(imageUrl) && c.instructor == userId
    ensures r.SaveCourse? ==>
              var c := r.course;
              c.duration == "0" && c.rating == 0.0 && c.difficulty == "Beginner" && c.prerequisites == [] &&
              c.learningObjectives == [] && c.modules == [] && c.progress == 0 && !c.isDownloaded
  {
    var t, d, img, dom := Trim(title), Trim(description), Trim(imageUrl), Trim(domain);
    if t == "" then CreateFieldError(TitleField, TitleRequired)
    else if d == "" then CreateFieldError(DescriptionField, DescriptionRequired)
    else if dom == "" then CreateFieldError(DomainField, DomainRequired)
    else SaveCourse(NewLearnCourse(courseId, t, dom, img, "0", 0.0, "Beginner", d, [], [], [], userId))
  }

  function CreateCourseChecks(title: string, description: string, domain: string): seq<Validation.Check>
  {
    [Validation.Check(Trim(title) != "", TitleRequired),
     Validation.Check(Trim(description) != "", DescriptionRequired),
     Validation.Check(Trim(domain) != "", DomainRequired)]
  }

  /** The message shown is the first failure among title, description and domain. */
  lemma CreateCourseFirstFailure(title: string, description: string, imageUrl: string, domain: string, userId: string,
                                 courseId: string)
    ensures var r := CreateCourse(title, description, imageUrl, domain, userId, courseId);
            var f := Validation.FirstFailure(CreateCourseChecks(title, description, domain));
            (r.SaveCourse? <==> f.None?) && (r.CreateFieldError? ==> f == Some(r.message))
  {
    var checks := CreateCourseChecks(title, description, domain);
    if checks[0].passes {
      if checks[1].passes {
        assert Validation.FirstFailure(checks[1..]) == Validation.FirstFailure(checks[2..]);
      }
    }
  }

  /** A picked domain becomes the new course's category, whatever image address is given. */
  lemma PickedDomainIsCategory(d: DomainDropdown, domain: DomainItem, title: string, description: string,
                               imageUrl: string, userId: string, courseId: string)
    requires HasVisible(title) && HasVisible(description)
    requires |domain.name| > 0 && !IsTrimmed(domain.name[0]) && !IsTrimmed(domain.name[|domain.name| - 1])
    ensures var r := CreateCourse(title, description, imageUrl, PickDomain(d, domain).text, userId, courseId);
            r.SaveCourse? && r.course.category == domain.name
  {
    VisibleSurvivesTrim(title);
    VisibleSurvivesTrim(description);
    TrimmedIsFixed(domain.name);
  }

  // ---------------------------------------------------------------------
  // The sections screen
  // ---------------------------------------------------------------------

  /** The sections screen: closed with a message, or showing a course's sections. */
  datatype SectionsScreen = SectionsClosed(message: string) | SectionsShown(courseId: string, sections: seq<CourseSection>)

  /** Opening the sections screen: a missing course id closes it; otherwise it starts empty. */
  function OpenSections(courseId: Option<string>): (r: SectionsScreen)
    ensures r.SectionsClosed? <==> courseId.None?
    ensures r.SectionsShown? ==> r.courseId == courseId.value && r.sections == []
  {
    match courseId
    case None => SectionsClosed("Error: Course ID not found")
    case Some(id) => SectionsShown(id, [])
  }

  /** The section record read from a stored section map. */
  function ToSection(m: SectionMap): CourseSection
  {
    CourseSection(m.id, m.title, m.description, m.order)
  }

  /** A section written by the repository reads back as the same section. */
  lemma SectionRoundTrip(s: CourseSection)
    ensures ToSection(SectionData(s)) == s
  {
  }

  /**
   * `loadSections`: the course's section maps, in order, as section
   * records; a missing course or section list leaves the list shown as it was.
   */
  function LoadSections(shown: seq<CourseSection>, modules: Option<seq<SectionMap>>): (r: seq<CourseSection>)
    ensures modules.None? ==> r == shown
    ensures modules.Some? ==> |r| == |modules.value|
    ensures modules.Some? ==>
              forall k :: 0 <= k < |r| ==>
                (r[k].id == modules.value[k].id && r[k].title == modules.value[k].title &&
                 r[k].description == modules.value[k].description && r[k].order == modules.value[k].order)
  {
    match modules
    case None => shown
    case Some(ms) => Map(ms, ToSection)
  }

  /** The Add button of the new-section dialog: a title is required; the order is the number of sections shown. */
  function NewSection(shown: seq<CourseSection>, title: string, description: string, freshId: string): (r: Option<CourseSection>)
    ensures r.None? <==> Trim(title) == ""
    ensures r.Some? ==> r.value == CourseSection(freshId, Trim(title), Trim(description), |shown|)
  {
    if Trim(title) == "" then None else Some(CourseSection(freshId, Trim(title), Trim(description), |shown|))
  }

  /**
   * With the section appended (the repository's evident intent), adding a
   * section and reloading shows the earlier sections followed by the new one.
   */
  lemma AddThenReload(modules: seq<SectionMap>, title: string, description: string, freshId: string)
    requires HasVisible(title)
    ensures var shown := LoadSections([], Some(modules));
            var s := NewSection(shown, title, description, freshId).value;
            var after := ReadModules(AddSectionAppended(SectionList(modules), s));
            after.Some? && LoadSections(shown, after) == shown + [s] && s.order == |modules|
  {
    VisibleSurvivesTrim(title);
    var shown := LoadSections([], Some(modules));
    ReloadShowsAppended(modules, NewSection(shown, title, description, freshId).value);
  }

  /** Reloading after a section is appended shows the sections shown before, then that section. */
  lemma ReloadShowsAppended(modules: seq<SectionMap>, s: CourseSection)
    ensures var shown := LoadSections([], Some(modules));
            var after := ReadModules(AddSectionAppended(SectionList(modules), s));
            after.Some? && LoadSections(shown, after) == shown + [s]
  {
    MapConcat(modules, [SectionData(s)], ToSection);
    SectionRoundTrip(s);
  }

  lemma {:induction false} MapConcat(a: seq<SectionMap>, b: seq<SectionMap>, f: SectionMap -> CourseSection)
    ensures Map(a + b, f) == Map(a, f) + Map(b, f)
    decreases |a|
  {
    if |a| > 0 {
      MapConcat(a[1..], b, f);
      assert (a + b)[1..] == a[1..] + b;
    }
  }

  // ---------------------------------------------------------------------
  // The subsection screen
  // ---------------------------------------------------------------------

  /** Opening the subsection screen needs both ids; otherwise it closes. */
  function OpenSubsection(courseId: Option<string>, sectionId: Option<string>): (r: Option<(string, string)>)
    ensures r.Some? <==> courseId.Some? && sectionId.Some?
    ensures r.Some? ==> r.value == (courseId.value, sectionId.value)
  {
    if courseId.Some? && sectionId.Some? then Some((courseId.value, sectionId.value)) else None
  }

  /** Save: a title is required after trimming; the content may be empty; the type is "text". */
  function NewSubsection(title: string, content: string, freshId: string): (r: Option<Subsection>)
    ensures r.None? <==> Trim(title) == ""
    ensures r.Some? ==> r.value.id == freshId && r.value.title == Trim(title) && r.value.content == Trim(content) &&
                        r.value.kind == "text"
  {
    if Trim(title) == "" then None else Some(Subsection(freshId, Trim(title), Trim(content), "text"))
  }

  /** The screen after a save: closed on success, open with the error otherwise. */
  function SubsectionSaved(failure: Option<string>): (r: Option<string>)
    ensures r.None? <==> failure.None?
    ensures r.Some? ==> r.value == "Error adding subsection: " + failure.value
  {
    match failure
    case None => None
    case Some(e) => Some("Error adding subsection: " + e)
  }

  /** A saved subsection lands last in the section it was opened for. */
  lemma SubsectionScreenAppends(c: LearnCourse, sectionId: string, title: string, content: string, freshId: string, k: int)
    requires 0 <= k < |c.modules| && c.modules[k].id == sectionId && HasVisible(title)
    ensures var sub := NewSubsection(title, content, freshId).value;
            var r := AddSubsectionToSection(Some(c), sectionId, sub).value;
            exists i :: 0 <= i <= k && r[i].id == sectionId && SubsectionsOf(r[i]) == SubsectionsOf(c.modules[i]) + [sub]
  {
    VisibleSurvivesTrim(title);
    SubsectionLandsLast(c, sectionId, NewSubsection(title, content, freshId).value, k);
  }

  // ---------------------------------------------------------------------
  // The domain screen
  // ---------------------------------------------------------------------

  const NameRequired := "Le nom du domaine est requis"
  const DescriptionRequiredFr := "La description est requise"

  /** Saving a new domain: the trimmed name is required first, then the description; the icon is empty. */
  function NewDomain(name: string, description: string): (r: Result<DomainItem>)
    ensures r.Success? <==> Trim(name) != "" && Trim(description) != ""
    ensures r == Failure(NameRequired) <==> Trim(name) == ""
    ensures r.Success? ==> r.value.name == Trim(name) && r.value.description == Trim(description) &&
                           r.value.iconUrl == ""
  {
    if Trim(name) == "" then Failure(NameRequired)
    else if Trim(description) == "" then Failure(DescriptionRequiredFr)
    else Success(DomainItem("", Trim(name), Trim(description), ""))
  }

  /** The screen's result: the chosen domain's id and name. */
  datatype DomainChoice = DomainChoice(domainId: string, domainName: string)

  /** Picking an existing domain returns it. */
  function PickExisting(d: DomainItem): (r: DomainChoice)
    ensures r.domainId == d.id && r.domainName == d.name
  {
    DomainChoice(d.id, d.name)
  }

  /** A stored new domain returns the id the collection assigned and the trimmed name. */
  function DomainAdded(d: DomainItem, assignedId: string): (r: DomainChoice)
    ensures r == PickExisting(d.(id := assignedId))
  {
    DomainChoice(assignedId, d.name)
  }

  /**
   * Adding a domain returns what picking the stored domain would; a name and
   * a description that each hold a character above U+0020 survive trimming.
   */
  lemma AddedDomainReturnsName(name: string, description: string, assignedId: string)
    requires HasVisible(name) && HasVisible(description)
    ensures NewDomain(name, description).Success?
    ensures var d := NewDomain(name, description).value;
            DomainAdded(d, assignedId) == DomainChoice(assignedId, Trim(name))
  {
    VisibleSurvivesTrim(name);
    VisibleSurvivesTrim(description);
  }
}
