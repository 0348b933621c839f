# Course platform: a Dafny model of the client-side logic

The repository holds three Android clients of one online-learning platform:

- **CourseApp** (Jetpack Compose). It covers the course catalogue, the course detail page, lessons, quizzes, progress, settings and navigation.
- **app** (Compose and Room). It covers the course and quiz editors, the view model that edits the course tree, the offline store, notes and saved credit cards.
- **frontend** (Java views). Its packages are `learnizone` and `learnflow`. It covers the student course list, the expandable domain picker, sign-up and login, and the teacher's authoring screens.

The clients keep their data in Firebase, which the model does not include. This project models the logic the clients compute on that data: record defaults, edits to the course tree, progress and quiz scoring, screen state machines, filters and sorts, form validators, the offline tables, the card store and the route builders. Everything is immutable datatypes and pure functions. A remote read or write becomes an explicit input, such as the document read, the id the store assigns, the clock reading, or `failure: Option<string>` for an operation that may fail.

| file | module | what it models |
|---|---|---|
| wrappers.dfy | `Wrappers` | `Option` and `Result` |
| seqs.dfy | `Seqs` | order-preserving filter, map, find, distinct, subsequence and sum, with their lemmas |
| text.dfy | `Text` | Kotlin `isBlank`, Java `trim`, ASCII case conversion, substring search, split and join on newlines, digit grouping, `toIntOrNull` and `toString` for Int |
| sorting.dfy | `Sorting` | the stable sort by key behind the `ORDER BY` queries and `sortByProgress` |
| course.dfy | `CourseModel` | the course, section, lesson, enrollment, quiz and question records and their defaults |
| edits.dfy | `CourseEdits` | the view model's section, lesson, quiz, question and media edits to the course tree, and how each is committed when the write succeeds or fails |
| progress.dfy | `Progress` | lesson completion, course progress, section completion and XP, and quiz unlocking and reset |
| repository.dfy | `RemoteRepository` | the Compose client's repository: progress, enrollment, section and lesson insertion, content types |
| offline.dfy | `OfflineStore` | the Room tables as keyed rows, the download of a course into them, the reload and the removal |
| quiztaking.dfy | `QuizTaking` | score, pass mark, failed questions, answer map, submit gate and timer |
| quizeditor.dfy | `QuizEditor` | the add-question dialog and the quiz description |
| courseeditor.dfy | `CourseEditor` | the add-section, add-lesson and add-quiz dialogs of the course editor |
| lessonnav.dfy | `LessonNav` | the lesson lookup and the next and previous buttons |
| pdfpager.dfy | `PdfPager` | the PDF preview's page counter |
| coursedetail.dfy | `CourseDetail` | enrollment, action buttons, section expansion, the quiz gate and the download button |
| progressstats.dfy | `ProgressStats` | the progress screen's counters and in-progress list |
| activity.dfy | `ActivityTracker` | the recorded activity and the rules for the three notices |
| notes.dfy | `Notes` | the note list: load guard, save, delete, error flag |
| catalog.dfy | `Catalog` | both home screens' categories, filters, chips and lists, and the instructor dashboard |
| courselist.dfy | `CourseList` | learnizone's course adapter and courses fragment |
| domainpicker.dfy | `DomainPicker` | the two expandable domain pickers and the domain-selection screens |
| cardform.dfy | `CardForm` | the add-card form's formatters and submit checks |
| cardstore.dfy | `CardStore` | the saved-card collection: add, list, delete, set default |
| validation.dfy | `Validation` | the settings, sign-up and login validators and role routing |
| learnizone.dfy | `Learnizone` | learnizone's course record, course repository, module adapter and data provider |
| authoring.dfy | `Authoring` | the teacher's create-course, sections, subsection and domain screens |
| routes.dfy | `Routes` | the navigation routes and their builders |

Each operation is paired with something independent of it. The partner is an inverse (delete after add, previous after next, decode after download), an invariant the operation keeps (unique keys, a page within range, at most one default card), or a reference definition (a filter stated by membership, a route stated by its template). A lemma over all inputs connects each operation to its partner.

Integer arithmetic follows the source's operators. Kotlin and Java division truncates toward zero, which the model writes out explicitly. Case conversion and digit tests cover ASCII only: `lowercase`, `uppercase` and `isDigit` act on ASCII letters and digits. `isBlank` uses Kotlin's whitespace set, and Java's `trim` drops characters up to U+0020.

Seven places in the source do something other than what the surrounding code evidently intends. They are listed under "## Findings". For each one, the model contains the code as written, a lemma showing an input where it goes wrong, and a corrected version with the intended property proved. Everywhere else, the model follows the code as written.

## Model

| member | source | states |
|---|---|---|
| ActivityTracker.TrackLessonCompletion | CourseApp/app/src/main/java/com/example/courseapp/service/UserActivityTracker.kt:22-29 | a lesson completion stores the course id, the lesson id and the time, and keeps the last quiz id |
| ActivityTracker.TrackQuizCompletion | CourseApp/app/src/main/java/com/example/courseapp/service/UserActivityTracker.kt:35-41 | a quiz completion stores only the quiz id and the time; the last course and lesson stay as they were |
| ActivityTracker.CompletionsCommute | CourseApp/app/src/main/java/com/example/courseapp/service/UserActivityTracker.kt:22-41 | lesson and quiz completions write disjoint keys, so either order gives the same ids and the later call's time |
| ActivityTracker.DaysSince | CourseApp/app/src/main/java/com/example/courseapp/service/UserActivityTracker.kt:46 | whole days between two instants, truncated towards zero: for a later instant the largest count of whole days not exceeding the gap, for an earlier one the count bracketing the negative gap from above |
| ActivityTracker.ReengagementIffThreeDays | CourseApp/app/src/main/java/com/example/courseapp/service/UserActivityTracker.kt:43-51 | the re-engagement notice is sent exactly when at least 259 200 000 ms have passed since the recorded activity, or since 0 when none is recorded |
| ActivityTracker.NoReengagementRightAfterActivity | CourseApp/app/src/main/java/com/example/courseapp/service/UserActivityTracker.kt:22-51 | checking at the instant of a completion sends no notice |
| ActivityTracker.NoActivityCountsFromEpoch | CourseApp/app/src/main/java/com/example/courseapp/service/UserActivityTracker.kt:44-48 | with no recorded activity, the notice depends only on the clock being three days past 0 |
| ActivityTracker.ModuleCompleted | CourseApp/app/src/main/java/com/example/courseapp/service/UserActivityTracker.kt:53-75 | the module notice names the first section that contains the lesson, and only when the lesson is that section's last one; nothing when the course is missing |
| ActivityTracker.ModuleCompletedIffLast | CourseApp/app/src/main/java/com/example/courseapp/service/UserActivityTracker.kt:59-71 | with lesson ids unique across the course, completing lesson k of section i announces section i exactly when k is its last lesson |
| ActivityTracker.OnlySectionWithLesson | CourseApp/app/src/main/java/com/example/courseapp/service/UserActivityTracker.kt:59-61 | with unique lesson ids, the first section containing a lesson of section i is section i |
| ActivityTracker.UniqueWithinSection | CourseApp/app/src/main/java/com/example/courseapp/service/UserActivityTracker.kt:59-65 | course-wide unique lesson ids stay unique inside each section |
| ActivityTracker.AllLessons | CourseApp/app/src/main/java/com/example/courseapp/service/UserActivityTracker.kt:113-114 | every lesson of the course, section by section: its ids are exactly the course's lesson ids in order |
| ActivityTracker.ResumeNotice | CourseApp/app/src/main/java/com/example/courseapp/service/UserActivityTracker.kt:105-127 | the resume notice names the course and the first lesson, in section order, carrying the stored last lesson id; nothing without a stored id, a course, or a matching lesson |
| ActivityTracker.CompletionEnablesResume | CourseApp/app/src/main/java/com/example/courseapp/service/UserActivityTracker.kt:22-127 | after completing a lesson of a course, the resume notice for that course names a lesson with that id |
| Authoring.OnDomainsLoaded | frontend/app/src/main/java/com/example/learnizone/activities/CreateCourseActivity.java:107-115 | an empty domain list, and only an empty one, makes the screen store the defaults and load again; any other list is shown unchanged |
| Authoring.DefaultsStopReloading | frontend/app/src/main/java/com/example/learnizone/repositories/DomainRepository.java:53-59 | once the five default domains are stored under their assigned ids, the reload shows them and triggers no further reload |
| Authoring.OpenDropdown | frontend/app/src/main/java/com/example/learnizone/activities/CreateCourseActivity.java:92-95 | clicking the domain field shows the domain list and keeps the typed text |
| Authoring.PickDomain | frontend/app/src/main/java/com/example/learnizone/activities/CreateCourseActivity.java:83-88 | picking a domain puts its name in the field and hides the list |
| Authoring.CreateCourse | frontend/app/src/main/java/com/example/learnizone/activities/CreateCourseActivity.java:127-169 | the course is saved exactly when trimmed title, description and domain are all non-empty; the title is blamed exactly when it is blank, the domain exactly when the other two pass; the saved course carries the trimmed inputs, the user as instructor, duration "0", rating 0, "Beginner" and empty lists |
| Authoring.CreateCourseFirstFailure | frontend/app/src/main/java/com/example/learnizone/activities/CreateCourseActivity.java:134-145 | the message shown is the first failing check among title, description and domain, and the course is saved exactly when none fails |
| Authoring.PickedDomainIsCategory | frontend/app/src/main/java/com/example/learnizone/activities/CreateCourseActivity.java:83-88 | with title and description filled in, a domain picked from the list is saved as the new course's category |
| Authoring.OpenSections | frontend/app/src/main/java/com/example/learnizone/activities/CourseSectionsActivity.java:39-44 | the sections screen closes exactly when no course id is passed; otherwise it shows that course with no sections yet |
| Authoring.SectionRoundTrip | frontend/app/src/main/java/com/example/learnizone/activities/CourseSectionsActivity.java:83-91 | a section the repository writes as a map reads back as the same section |
| Authoring.LoadSections | frontend/app/src/main/java/com/example/learnizone/activities/CourseSectionsActivity.java:77-93 | a loaded course replaces the list with one section per stored map, in order, with the map's id, title, description and order; a missing course or section list leaves the list as it was |
| Authoring.NewSection | frontend/app/src/main/java/com/example/learnizone/activities/CourseSectionsActivity.java:112-128 | the Add button refuses exactly a blank title; otherwise the new section has the fresh id, the trimmed title and description, and the number of sections shown as its order |
| Authoring.AddThenReload | frontend/app/src/main/java/com/example/learnizone/activities/CourseSectionsActivity.java:122-134 | with the section appended, adding a section and reloading shows the earlier sections followed by the new one, whose order is its position |
| Authoring.ReloadShowsAppended | frontend/app/src/main/java/com/example/learnizone/activities/CourseSectionsActivity.java:122-134 | for any section appended to the stored module list, reloading shows the sections shown before followed by that section, unchanged by the round trip through the stored map |
| Authoring.OpenSubsection | frontend/app/src/main/java/com/example/learnizone/activities/AddSubsectionActivity.java:31-38 | the subsection screen opens exactly when both the course id and the section id are passed |
| Authoring.NewSubsection | frontend/app/src/main/java/com/example/learnizone/activities/AddSubsectionActivity.java:51-66 | saving refuses exactly a blank title; otherwise the subsection has the fresh id, trimmed title and content, and type "text" |
| Authoring.SubsectionSaved | frontend/app/src/main/java/com/example/learnizone/activities/AddSubsectionActivity.java:69-76 | the screen closes exactly when the write succeeds; otherwise it stays with "Error adding subsection: " and the cause |
| Authoring.SubsectionScreenAppends | frontend/app/src/main/java/com/example/learnizone/activities/AddSubsectionActivity.java:61-69 | a subsection saved from the screen lands last in the section it was opened for, the section's earlier subsections kept |
| Authoring.NewDomain | frontend/app/src/main/java/com/example/learnizone/activities/AddDomainActivity.java:86-100 | a new domain is accepted exactly when trimmed name and description are non-empty; the name error is shown exactly when the name is blank; the domain has the trimmed texts and an empty icon |
| Authoring.PickExisting | frontend/app/src/main/java/com/example/learnizone/activities/AddDomainActivity.java:49-57 | picking a listed domain returns its id and name |
| Authoring.DomainAdded | frontend/app/src/main/java/com/example/learnizone/activities/AddDomainActivity.java:101-110 | a stored new domain returns what picking it, under the id the collection assigned, would return |
| Authoring.AddedDomainReturnsName | frontend/app/src/main/java/com/example/learnizone/activities/AddDomainActivity.java:86-110 | adding a valid domain returns the assigned id and the trimmed name |
| CardForm.FormatCard | app/src/main/java/com/example/courseapp/ui/screens/AddCreditCardScreen.kt:83-85 | the shown number, with its spaces removed, is exactly the digits typed, and a space stands exactly at every fifth position, so the digits come in groups of four; its length is the digit count plus one space between consecutive groups, so there is no trailing space |
| Text.Group4At | app/src/main/java/com/example/courseapp/ui/screens/AddCreditCardScreen.kt:84-85 | in a grouped string every fifth character is the separator and every other character is the next input character in order |
| CardForm.Group4Length | app/src/main/java/com/example/courseapp/ui/screens/AddCreditCardScreen.kt:84-85 | grouping n digits by four adds one space per further group |
| CardForm.FormatCardIdempotent | app/src/main/java/com/example/courseapp/ui/screens/AddCreditCardScreen.kt:83-85 | formatting a shown card number again changes nothing |
| CardForm.EditCardNumber | app/src/main/java/com/example/courseapp/ui/screens/AddCreditCardScreen.kt:81-88 | an edit of at most 19 characters is reformatted; a longer one is ignored |
| CardForm.ShownCardNumberStable | app/src/main/java/com/example/courseapp/ui/screens/AddCreditCardScreen.kt:81-88 | a shown number of up to sixteen digits fits in 19 characters, so the field accepts it back unchanged |
| CardForm.FormatExpiry | app/src/main/java/com/example/courseapp/ui/screens/AddCreditCardScreen.kt:130-134 | the shown expiry has five characters exactly when four digits were typed |
| CardForm.ExpiryDigits | app/src/main/java/com/example/courseapp/ui/screens/AddCreditCardScreen.kt:128-134 | the digits of a shown expiry are the digits it was made from |
| CardForm.EditExpiry | app/src/main/java/com/example/courseapp/ui/screens/AddCreditCardScreen.kt:126-138 | an edit of at most five characters with at most four digits is reformatted; anything else is ignored |
| CardForm.ShownExpiryStable | app/src/main/java/com/example/courseapp/ui/screens/AddCreditCardScreen.kt:126-138 | a shown expiry typed back in gives itself |
| CardForm.EditCvv | app/src/main/java/com/example/courseapp/ui/screens/AddCreditCardScreen.kt:154-159 | an edit of at most four characters keeps only its digits; a longer one is ignored |
| CardForm.EditHolder | app/src/main/java/com/example/courseapp/ui/screens/AddCreditCardScreen.kt:104-107 | the holder's name is shown with no lower-case letters, same length, blank exactly when the input is |
| CardForm.TypeCardNumber | app/src/main/java/com/example/courseapp/ui/screens/AddCreditCardScreen.kt:81-88 | an accepted card number edit replaces the field and clears its error only |
| CardForm.TypeHolder | app/src/main/java/com/example/courseapp/ui/screens/AddCreditCardScreen.kt:104-107 | a holder edit replaces the field and clears its error only |
| CardForm.TypeExpiry | app/src/main/java/com/example/courseapp/ui/screens/AddCreditCardScreen.kt:126-138 | an accepted expiry edit replaces the field and clears its error only |
| CardForm.TypeCvv | app/src/main/java/com/example/courseapp/ui/screens/AddCreditCardScreen.kt:154-159 | an accepted CVV edit replaces the field and clears its error only |
| CardForm.Submit | app/src/main/java/com/example/courseapp/ui/screens/AddCreditCardScreen.kt:177-210 | each failing check sets its own message and none is cleared; the card, its number without spaces, is handed on exactly when every check passes and a user is signed in |
| CardForm.EditsKeepErrorsSound | app/src/main/java/com/example/courseapp/ui/screens/AddCreditCardScreen.kt:81-159 | edits never leave an error under a field that passes its check |
| CardForm.SubmitShowsExactlyFailures | app/src/main/java/com/example/courseapp/ui/screens/AddCreditCardScreen.kt:179-199 | from a form whose errors are sound, submit shows an error under exactly the failing fields |
| CardForm.EmptyFormShowsAllErrors | app/src/main/java/com/example/courseapp/ui/screens/AddCreditCardScreen.kt:179-199 | submitting the empty form shows all four messages and saves nothing |
| CardForm.MonthNotChecked | app/src/main/java/com/example/courseapp/ui/screens/AddCreditCardScreen.kt:191-194 | the expiry check does not look at the month: "13/99" passes |
| CardForm.TypedFormSubmits | app/src/main/java/com/example/courseapp/ui/screens/AddCreditCardScreen.kt:81-209 | typing sixteen digits, four expiry digits, three or four CVV digits and a name gives a form that is saved with exactly the typed digits as its number |
| CardStore.AddCreditCard | app/src/main/java/com/example/courseapp/repository/CreditCardRepository.kt:13-33 | a failed write changes nothing; otherwise a card with the new id, the last four characters of the number and no default flag is appended and returned |
| CardStore.ListCards | app/src/main/java/com/example/courseapp/repository/CreditCardRepository.kt:35-49 | exactly the user's cards in store order, or none when the query fails |
| CardStore.DeleteCreditCard | app/src/main/java/com/example/courseapp/repository/CreditCardRepository.kt:51-58 | a failed write changes nothing; otherwise exactly the cards with other ids remain, in order |
| CardStore.SetDefaultCard | app/src/main/java/com/example/courseapp/repository/CreditCardRepository.kt:60-81 | with the card present, the chosen card becomes default and the user's others do not, other users' cards untouched; with it absent or a failed write, nothing changes |
| CardStore.SetDefaultLeavesOneDefault | app/src/main/java/com/example/courseapp/repository/CreditCardRepository.kt:60-81 | when the chosen card is the user's, their listing afterwards has exactly that card as default |
| CardStore.SetDefaultIgnoresOwner | app/src/main/java/com/example/courseapp/repository/CreditCardRepository.kt:60-81 | the owner is not checked: another user's card becomes default while that user's other cards keep their flags |
| CardStore.AddThenList | app/src/main/java/com/example/courseapp/repository/CreditCardRepository.kt:13-49 | a card just added shows up in its owner's listing holding the last four characters of the number |
| CardStore.DeleteThenList | app/src/main/java/com/example/courseapp/repository/CreditCardRepository.kt:35-58 | after a delete no listing holds the card, and the user's other cards are still listed |
| CardStore.StoredNumberIsLastFourDigits | app/src/main/java/com/example/courseapp/repository/CreditCardRepository.kt:13-33 | a valid submission of sixteen typed digits stores exactly the last four of them |
| Catalog.Categories | CourseApp/app/src/main/java/com/example/courseapp/ui/screens/HomeScreen.kt:61-62 | the chip categories are exactly the non-blank categories of the courses, each once, in first-appearance order |
| Catalog.FilteredCourses | CourseApp/app/src/main/java/com/example/courseapp/ui/screens/HomeScreen.kt:64-71 | exactly the courses that match the query and the selected category, in their order |
| Catalog.UnfilteredKeepsAll | CourseApp/app/src/main/java/com/example/courseapp/ui/screens/HomeScreen.kt:64-71 | a blank query with no category keeps every course |
| Catalog.FiltersAgree | CourseApp/app/src/main/java/com/example/courseapp/ui/screens/HomeScreen.kt:64-71 | the other client's filter, where a blank category means none, selects the same courses |
| Catalog.ClickChip | CourseApp/app/src/main/java/com/example/courseapp/ui/screens/HomeScreen.kt:195-200 | clicking the selected chip clears the selection; clicking any other chip selects it |
| Catalog.ChipClickTwice | CourseApp/app/src/main/java/com/example/courseapp/ui/screens/HomeScreen.kt:179-200 | two clicks on a chip restore the selection, from it selected or from "All" |
| Catalog.PickCategory | app/src/main/java/com/example/courseapp/ui/screens/HomeScreen.kt:172-188 | picking a category in the dialog selects it and closes the dialog |
| Catalog.ClearFilter | app/src/main/java/com/example/courseapp/ui/screens/HomeScreen.kt:193-199 | "Clear Filter" empties the selection and closes the dialog, and is then no longer offered |
| Catalog.PickThenClear | app/src/main/java/com/example/courseapp/ui/screens/HomeScreen.kt:172-199 | after picking a non-blank category "Clear Filter" is offered, and clearing brings back the query-only filter |
| Catalog.Featured | CourseApp/app/src/main/java/com/example/courseapp/ui/screens/HomeScreen.kt:303-304 | the featured list is the first three courses, or all of them when there are fewer |
| Catalog.ContinueLearning | CourseApp/app/src/main/java/com/example/courseapp/ui/screens/HomeScreen.kt:394-395 | the continue-learning list drops the first three courses |
| Catalog.FeaturedThenContinue | CourseApp/app/src/main/java/com/example/courseapp/ui/screens/HomeScreen.kt:303-395 | featured followed by continue-learning is the whole list, so every course is shown exactly once |
| Catalog.SearchResults | CourseApp/app/src/main/java/com/example/courseapp/ui/screens/HomeScreen.kt:224-236 | as written, a non-blank query lists every course with its extras |
| Catalog.SearchIgnoresQuery | CourseApp/app/src/main/java/com/example/courseapp/ui/screens/HomeScreen.kt:224-236 | every course is listed whatever the query, so the results equal those of the empty query |
| Catalog.SearchListsNonMatching | CourseApp/app/src/main/java/com/example/courseapp/ui/screens/HomeScreen.kt:236 | a course matching nothing in the query "zzz" is still listed |
| Catalog.SearchResultsFiltered | CourseApp/app/src/main/java/com/example/courseapp/ui/screens/HomeScreen.kt:64-71 | the corrected results: exactly the entries whose course passes the filter, in order |
| Catalog.FilteredSearchAgrees | CourseApp/app/src/main/java/com/example/courseapp/ui/screens/HomeScreen.kt:64-71 | the corrected results list exactly the filtered courses, in order, each with its extras |
| Catalog.DashboardCourses | CourseApp/app/src/main/java/com/example/courseapp/ui/screens/InstructorDashboardScreen.kt:168-171 | exactly the courses whose title or description contains the query, ignoring case, in order |
| Catalog.EmptyQueryShowsAll | CourseApp/app/src/main/java/com/example/courseapp/ui/screens/InstructorDashboardScreen.kt:168-171 | the empty query shows every course |
| Catalog.DashboardCreate | CourseApp/app/src/main/java/com/example/courseapp/ui/screens/InstructorDashboardScreen.kt:184-197 | the new course has no sections, the given title, description and category, the chosen image's address or "", and the user's id as its instructor |
| CourseModel.LessonIds | CourseApp/app/src/main/java/com/example/courseapp/model/Course.kt:21-26 | one id per lesson of the section, position by position |
| CourseModel.AllLessonIdsLength | CourseApp/app/src/main/java/com/example/courseapp/model/Course.kt:17-24 | the course's lesson-id list has one entry per lesson of every section |
| CourseModel.AllLessonIdsMembership | CourseApp/app/src/main/java/com/example/courseapp/model/Course.kt:17-24 | an id is a lesson id of the course exactly when some section has a lesson with it |
| CourseModel.NewCourse | CourseApp/app/src/main/java/com/example/courseapp/model/Course.kt:6-19 | a course built with the defaults has no sections, so no lessons and no section to find, no students and rating 0 |
| CourseModel.NewSection | CourseApp/app/src/main/java/com/example/courseapp/model/Course.kt:21-26 | a section built from id and title holds no lesson and no quiz |
| CourseModel.NewEnrollment | CourseApp/app/src/main/java/com/example/courseapp/model/Course.kt:28-34 | a fresh enrollment has progress 0 and no completed lesson |
| CourseModel.NewQuiz | app/src/main/java/com/example/courseapp/model/Quiz.kt:3-11 | a quiz built with the defaults passes at 70, allows one attempt, has no time limit and no questions |
| CourseModel.NewQuestion | app/src/main/java/com/example/courseapp/model/Quiz.kt:13-20 | a question built with the defaults is multiple choice, has no options and weighs one point |
| CourseModel.NewLesson | app/src/main/java/com/example/courseapp/model/Lesson.kt:6-14 | a lesson built from id and title has empty video, PDF and image URLs |
| CourseModel.QuestionTypesComplete | app/src/main/java/com/example/courseapp/model/Quiz.kt:22-26 | there are exactly three question kinds, each listed once |
| CourseDetail.IsEnrolled | CourseApp/app/src/main/java/com/example/courseapp/ui/screens/CourseDetailScreen.kt:53-57 | true exactly when a course is shown and some enrolled course has its id |
| CourseDetail.EnrolledByIdOnly | CourseApp/app/src/main/java/com/example/courseapp/ui/screens/CourseDetailScreen.kt:53-57 | two copies of a course with the same id are equally enrolled, whatever their other fields |
| CourseDetail.View | CourseApp/app/src/main/java/com/example/courseapp/ui/screens/CourseDetailScreen.kt:181-213 | the progress bar shows exactly for an enrolled student; "Enroll Now" exactly when not enrolled, "Rate this Course" exactly when enrolled at 100 percent, no button otherwise |
| CourseDetail.RateExactlyWhenAllComplete | CourseApp/app/src/main/java/com/example/courseapp/ui/screens/CourseDetailScreen.kt:206-213 | with the computed progress, an enrolled student is offered the rating button exactly when every lesson is complete |
| CourseDetail.Collapsed | CourseApp/app/src/main/java/com/example/courseapp/ui/screens/CourseDetailScreen.kt:341 | every section starts collapsed |
| CourseDetail.ClickSection | CourseApp/app/src/main/java/com/example/courseapp/ui/screens/CourseDetailScreen.kt:354 | a click flips the clicked section's flag and no other |
| CourseDetail.ClickTwiceRestores | CourseApp/app/src/main/java/com/example/courseapp/ui/screens/CourseDetailScreen.kt:354 | two clicks on the same section restore every flag |
| CourseDetail.ExpandedIffOddClicks | CourseApp/app/src/main/java/com/example/courseapp/ui/screens/CourseDetailScreen.kt:341-354 | after any clicks, a section is flipped from its start exactly when it was clicked an odd number of times |
| CourseDetail.QuizButtonFor | CourseApp/app/src/main/java/com/example/courseapp/ui/screens/CourseDetailScreen.kt:408-424 | the quiz button is enabled exactly when the flow has said the quiz may be taken, with "Take Quiz" then and "Complete Lessons First" otherwise |
| CourseDetail.CompletedSectionEnablesQuiz | CourseApp/app/src/main/java/com/example/courseapp/ui/screens/CourseDetailScreen.kt:408-424 | once every lesson of a section is complete, its quiz button is enabled |
| CourseDetail.DownloadedNeverMatches | CourseApp/app/src/main/java/com/example/courseapp/ui/screens/CourseDetailScreen.kt:50 | a course with an image, students, duration, rating, price or another timestamp never equals any course loaded from the store |
| CourseDetail.DownloadButtonStaysEnabled | CourseApp/app/src/main/java/com/example/courseapp/ui/screens/CourseDetailScreen.kt:50-102 | as written, the download button of a course with an image stays enabled right after the course is downloaded |
| CourseDetail.DownloadDisablesButton | CourseApp/app/src/main/java/com/example/courseapp/ui/screens/CourseDetailScreen.kt:50-102 | matching downloads by id, the button is disabled once the course has been downloaded |
| CourseDetail.RemoveEnablesButton | CourseApp/app/src/main/java/com/example/courseapp/ui/screens/CourseDetailScreen.kt:50-102 | matching downloads by id, removing the download enables the button again |
| CourseEditor.ConfirmAddSection | app/src/main/java/com/example/courseapp/ui/screens/CourseEditorScreen.kt:404-410 | Add section closes the dialog exactly for a non-blank title and then appends one empty section with that title; it never throws |
| CourseEditor.AddedSectionIsFound | app/src/main/java/com/example/courseapp/ui/screens/CourseEditorScreen.kt:404-410 | a section added under an unused id is the one found for that id |
| CourseEditor.UrlOf | app/src/main/java/com/example/courseapp/viewmodel/CourseViewModel.kt:430-451 | the stored URL is the download URL of an uploaded file, and "" when nothing was picked or the upload failed |
| CourseEditor.FormLesson | app/src/main/java/com/example/courseapp/viewmodel/CourseViewModel.kt:397-475 | the lesson handed on carries the dialog's title, description and duration and the three stored URLs |
| CourseEditor.ConfirmAddLesson | app/src/main/java/com/example/courseapp/ui/screens/CourseEditorScreen.kt:420-493 | as written: a non-blank title reads the section at the dialog's index with no upper bound, so an index past the end throws; otherwise the lesson goes into that section when a user is signed in, and the dialog closes |
| CourseEditor.AddLessonPastEndCrashes | app/src/main/java/com/example/courseapp/ui/screens/CourseEditorScreen.kt:420-479 | a selected course with no sections lets the dialog open at index 0, and Add then throws |
| CourseEditor.ConfirmAddLessonChecked | app/src/main/java/com/example/courseapp/ui/screens/CourseEditorScreen.kt:476-557 | with the quiz dialog's range check, Add never throws: an index outside the sections closes the dialog without writing |
| CourseEditor.CheckedAgreesWhereNoCrash | app/src/main/java/com/example/courseapp/ui/screens/CourseEditorScreen.kt:476-557 | where the written dialog does not throw, the checked one does exactly the same; where it throws, the checked one only closes |
| CourseEditor.NewQuizForm | app/src/main/java/com/example/courseapp/ui/screens/CourseEditorScreen.kt:503-507 | the quiz dialog opens with empty texts and number fields that parse to 70, 0 and 1 |
| CourseEditor.FormQuiz | app/src/main/java/com/example/courseapp/ui/screens/CourseEditorScreen.kt:558-566 | the quiz handed on parses each number field, falling back to 70, 0 and 1 |
| CourseEditor.ConfirmAddQuiz | app/src/main/java/com/example/courseapp/ui/screens/CourseEditorScreen.kt:552-571 | Add quiz closes the dialog exactly for a non-blank title, and writes the quiz only when the index lies inside the section list |
| CourseEditor.UntouchedQuizFormGivesDefaults | app/src/main/java/com/example/courseapp/ui/screens/CourseEditorScreen.kt:503-565 | with its numbers untouched, the dialog adds exactly the quiz the model's defaults describe |
| CourseList.NewAdapter | frontend/app/src/main/java/com/example/learnizone/CourseAdapter.java:26-30 | a new adapter shows the courses it was given and keeps a copy of them for filtering |
| CourseList.FilterText | frontend/app/src/main/java/com/example/learnizone/CourseAdapter.java:66-79 | the empty text restores the copy; other text shows exactly the copy's courses whose title or category contains it, ignoring case, in order; the copy is untouched |
| CourseList.FilterByProgress | frontend/app/src/main/java/com/example/learnizone/CourseAdapter.java:86-94 | exactly the copy's courses with at least the given progress, in order; the copy is untouched |
| CourseList.SortByProgress | frontend/app/src/main/java/com/example/learnizone/CourseAdapter.java:81-84 | the shown courses are permuted into non-increasing progress; the copy is untouched |
| CourseList.SortByProgressStable | frontend/app/src/main/java/com/example/learnizone/CourseAdapter.java:81-84 | courses with equal progress keep their relative order |
| CourseList.SnapshotNeverChanges | frontend/app/src/main/java/com/example/learnizone/CourseAdapter.java:26-94 | no sequence of filters and sorts ever changes the copy the adapter was built with |
| CourseList.FiltersNotCumulative | frontend/app/src/main/java/com/example/learnizone/CourseAdapter.java:66-94 | after any operations a filter gives what it gives on a fresh adapter, and the empty text restores the original list |
| CourseList.ByCategory | frontend/app/src/main/java/com/example/learnizone/CoursesFragment.java:106-119 | a chip lists exactly the sample courses whose category is the chip's name, in order |
| CourseList.ByQuery | frontend/app/src/main/java/com/example/learnizone/CoursesFragment.java:121-134 | a submitted query lists exactly the sample courses whose title contains it, ignoring case, in order |
| CourseList.OnEvent | frontend/app/src/main/java/com/example/learnizone/CoursesFragment.java:73-134 | chips and submits filter the samples, clearing the search text shows them all, other edits leave the list as it is |
| CourseList.LastFilterWins | frontend/app/src/main/java/com/example/learnizone/CoursesFragment.java:106-134 | after a chip or a submit, the list does not depend on what was shown before |
| CourseList.ProgrammationChip | frontend/app/src/main/java/com/example/learnizone/CoursesFragment.java:143-219 | the "Programmation" chip lists courses "1" and "4", in that order |
| CourseList.ProgrammationFilter | frontend/app/src/main/java/com/example/learnizone/CoursesFragment.java:106-219 | any chip named "Programmation" lists the JavaScript and React courses |
| CourseList.EducationHasNoChip | frontend/app/src/main/java/com/example/learnizone/CoursesFragment.java:143-206 | course "5" is in "Éducation", which has no chip, so no chip lists it |
| DomainPicker.ViewType | frontend/app/src/main/java/com/example/learnflow/DomainCategoryAdapter.java:16-43 | a row's view type is 0 exactly for a category header and 1 exactly for a domain |
| DomainPicker.DomainRows | frontend/app/src/main/java/com/example/learnflow/DomainCategoryAdapter.java:33-35 | an expanded category contributes one row per domain, in order; a collapsed one none |
| DomainPicker.FlatLength | frontend/app/src/main/java/com/example/learnflow/DomainCategoryAdapter.java:29-71 | the item count is one per category plus one per domain of each expanded category |
| DomainPicker.FlatLayout | frontend/app/src/main/java/com/example/learnflow/DomainCategoryAdapter.java:29-38 | each category's header sits after the earlier categories and their shown domains, and its shown domains follow it in order |
| DomainPicker.ToggleCategory | frontend/app/src/main/java/com/example/learnflow/DomainCategoryAdapter.java:86-89 | a header click flips that category's expanded flag and changes nothing else |
| DomainPicker.ToggleRowCount | frontend/app/src/main/java/com/example/learnflow/DomainCategoryAdapter.java:86-89 | expanding adds exactly the category's domains to the rows; collapsing removes exactly them |
| DomainPicker.ToggleTwice | frontend/app/src/main/java/com/example/learnflow/DomainCategoryAdapter.java:86-89 | two clicks on the same header give back the same categories and rows |
| DomainPicker.RowsIgnoreSelection | frontend/app/src/main/java/com/example/learnflow/DomainCategoryAdapter.java:29-38 | the rows depend only on the expanded flags and domain counts, not on which domains are selected |
| DomainPicker.NewExpandable | frontend/app/src/main/java/com/example/learnizone/ExpandableAdapter.java:23-37 | the other adapter builds its rows once, in its constructor, with the same layout |
| DomainPicker.ExpandableClick | frontend/app/src/main/java/com/example/learnizone/ExpandableAdapter.java:66-69 | as written, a header click flips the flag but keeps the rows built in the constructor |
| DomainPicker.ExpandingShowsNoDomains | frontend/app/src/main/java/com/example/learnizone/ExpandableAdapter.java:23-69 | expanding a collapsed category that has domains leaves the item count unchanged, so the rows no longer match the flags |
| DomainPicker.ExpandableClickRebuilt | frontend/app/src/main/java/com/example/learnizone/ExpandableAdapter.java:66-69 | the corrected click flips the flag and rebuilds the rows from the categories |
| DomainPicker.RebuiltClickShowsDomains | frontend/app/src/main/java/com/example/learnizone/ExpandableAdapter.java:66-69 | with rebuilding, each click adds or removes exactly that category's domains |
| DomainPicker.ToggleDomain | frontend/app/src/main/java/com/example/learnflow/DomainCategoryAdapter.java:110-116 | a domain click flips that domain's selected flag and no other, and leaves every category's shape unchanged |
| DomainPicker.SelectingKeepsRows | frontend/app/src/main/java/com/example/learnflow/DomainCategoryAdapter.java:110-116 | selecting a domain leaves the rows unchanged |
| DomainPicker.TogglingKeepsSelection | frontend/app/src/main/java/com/example/learnflow/DomainCategoryAdapter.java:86-89 | expanding or collapsing never changes which domains are selected |
| DomainPicker.OnDomainSelected | frontend/app/src/main/java/com/example/learnflow/SignUpActivity2.java:60-68 | a selection appends the domain; a deselection cuts out its first occurrence and keeps every other entry in order, and changes nothing when the domain is absent |
| DomainPicker.ClickKeepsConsistent | frontend/app/src/main/java/com/example/learnflow/DomainCategoryAdapter.java:110-116 | every domain click keeps the activity's list holding each selected domain exactly once and nothing else |
| DomainPicker.HeaderClickKeepsConsistent | frontend/app/src/main/java/com/example/learnflow/DomainCategoryAdapter.java:86-89 | header clicks keep the list in step with the flags too |
| DomainPicker.FinishCountsSelectedDomains | frontend/app/src/main/java/com/example/learnflow/SignUpActivity2.java:67 | with a list in step, the finish button is enabled exactly when three or more distinct domains are selected |
| DomainPicker.OnFinish | frontend/app/src/main/java/com/example/learnizone/SignUpActivity2.java:65-109 | fewer than three shows the error and saves nothing; otherwise the names in selection order go to the user's document, or "User not found" without a user id |
| DomainPicker.OnFinishMessage | frontend/app/src/main/java/com/example/learnflow/SignUpActivity2.java:48-57 | the error message is shown exactly when fewer than three domains are selected; otherwise "Account created with <n> domains selected" where n is the number of selected domains in decimal without leading zeros |
| DomainPicker.InitialPickerShape | frontend/app/src/main/java/com/example/learnflow/SignUpActivity2.java:32-47 | the picker starts with only the three category headers shown, an empty selection in step with the flags, and finish disabled |
| CourseEdits.MapSection | app/src/main/java/com/example/courseapp/viewmodel/CourseViewModel.kt:524-537 | the id-targeted map keeps the section count and order, applies the edit exactly to the sections with the id, and is the identity when the edit changes none of them |
| CourseEdits.MapLesson | app/src/main/java/com/example/courseapp/viewmodel/CourseViewModel.kt:526-534 | the same for the lessons of one section |
| CourseEdits.MapQuiz | app/src/main/java/com/example/courseapp/viewmodel/CourseViewModel.kt:1105-1107 | the same for the quizzes of one section |
| CourseEdits.AddSection | app/src/main/java/com/example/courseapp/viewmodel/CourseViewModel.kt:297-318 | adding a section appends one empty section with the new id and the title, keeps every earlier section and every other field, and leaves the lesson total unchanged |
| CourseEdits.UpdateCourseInfo | app/src/main/java/com/example/courseapp/viewmodel/CourseViewModel.kt:1070-1081 | editing the course info replaces description and category and keeps the section tree, title, instructor and enrolment count |
| CourseEdits.CreateCourse | app/src/main/java/com/example/courseapp/viewmodel/CourseViewModel.kt:260-287 | the created course stores the instructor's user id in `instructor`, with the given sections and no enrolled student |
| CourseEdits.CreateCourseIgnoresName | app/src/main/java/com/example/courseapp/viewmodel/CourseViewModel.kt:263-277 | the instructor display name passed to `createCourse` never reaches the stored course |
| CourseEdits.DeleteCourse | app/src/main/java/com/example/courseapp/viewmodel/CourseViewModel.kt:1083-1096 | deleting a course clears the selection and removes exactly the courses with that id from both lists, keeping the others in order |
| CourseEdits.AddLesson | app/src/main/java/com/example/courseapp/viewmodel/CourseViewModel.kt:320-358 | adding a lesson appends it to each section with the id, and changes nothing else; an unknown section id leaves the course as it was |
| CourseEdits.UpdateLesson | app/src/main/java/com/example/courseapp/viewmodel/CourseViewModel.kt:513-549 | updating a lesson replaces title, description and duration of the lessons with the id in the targeted section and keeps their media URLs; everything else is unchanged |
| CourseEdits.DeleteLesson | app/src/main/java/com/example/courseapp/viewmodel/CourseViewModel.kt:551-571 | deleting a lesson removes exactly the lessons with the id from the targeted section, the others in order |
| CourseEdits.DeleteLessonAfterAdd | app/src/main/java/com/example/courseapp/viewmodel/CourseViewModel.kt:320-358 | deleting a lesson just added under an unused id gives back the original course |
| CourseEdits.ParseMediaKind | app/src/main/java/com/example/courseapp/viewmodel/CourseViewModel.kt:590-595 | "image", "video" and "pdf" each name their own media field, and no other string names one |
| CourseEdits.SetMedia | app/src/main/java/com/example/courseapp/viewmodel/CourseViewModel.kt:590-595 | setting media of a known kind replaces that URL and keeps the other two; an unknown kind changes nothing |
| CourseEdits.UpdateLessonMedia | app/src/main/java/com/example/courseapp/viewmodel/CourseViewModel.kt:573-604 | the uploaded URL goes into the named media field of the targeted lesson only; an unknown media type leaves the course as it was |
| CourseEdits.DeleteLessonMedia | app/src/main/java/com/example/courseapp/viewmodel/CourseViewModel.kt:606-633 | deleting media clears the named field of the targeted lesson only; an unknown media type leaves the course as it was |
| CourseEdits.DeleteMediaIsEmptyUpdate | app/src/main/java/com/example/courseapp/viewmodel/CourseViewModel.kt:573-633 | deleting media is the same as uploading the empty URL |
| CourseEdits.DeleteMediaAfterUpdate | app/src/main/java/com/example/courseapp/viewmodel/CourseViewModel.kt:573-633 | deleting media right after uploading it leaves what deleting alone leaves |
| CourseEdits.UploadPath | app/src/main/java/com/example/courseapp/viewmodel/CourseViewModel.kt:636-645 | the storage path is "lessons/<type>s/<uuid>" with ".jpg", ".mp4" or ".pdf" for the three known kinds and no extension otherwise |
| CourseEdits.AddQuiz | app/src/main/java/com/example/courseapp/viewmodel/CourseViewModel.kt:647-684 | adding a quiz appends an empty quiz with the form's pass mark, time limit and attempts to each section with the id |
| CourseEdits.DeleteQuiz | app/src/main/java/com/example/courseapp/viewmodel/CourseViewModel.kt:731-751 | deleting a quiz removes exactly the quizzes with the id from the targeted section |
| CourseEdits.DeleteQuizAfterAdd | app/src/main/java/com/example/courseapp/viewmodel/CourseViewModel.kt:647-751 | deleting a quiz just added under an unused id gives back the original course |
| CourseEdits.AddQuestion | app/src/main/java/com/example/courseapp/viewmodel/CourseViewModel.kt:686-729 | adding a question appends it to each quiz with the id in each section with the id; other quizzes and sections are untouched |
| CourseEdits.DeleteQuestion | app/src/main/java/com/example/courseapp/viewmodel/CourseViewModel.kt:1119-1138 | deleting a question removes exactly the questions with the id from the targeted quizzes |
| CourseEdits.DeleteQuestionAfterAdd | app/src/main/java/com/example/courseapp/viewmodel/CourseViewModel.kt:686-729 | deleting a question just added under an unused id gives back the original course |
| CourseEdits.UpdateQuizDescription | app/src/main/java/com/example/courseapp/viewmodel/CourseViewModel.kt:1098-1117 | the targeted quizzes take the new description verbatim, even an empty one; nothing else changes |
| CourseEdits.UpdateQuizDescriptionLastWins | app/src/main/java/com/example/courseapp/viewmodel/CourseViewModel.kt:1098-1117 | of two description updates of the same quiz only the last is visible |
| CourseEdits.CommitEdit | app/src/main/java/com/example/courseapp/viewmodel/CourseViewModel.kt:297-318 | with no selected course nothing happens; a failed write leaves the selection as it was; only a successful write makes the edited course the selection |
| CourseEdits.FailedCommitLeavesNoTrace | app/src/main/java/com/example/courseapp/viewmodel/CourseViewModel.kt:297-318 | a failed write followed by a successful retry selects what a first successful write selects |
| CourseEdits.CommittedDeleteUndoesAdd | app/src/main/java/com/example/courseapp/viewmodel/CourseViewModel.kt:320-571 | committing a new lesson and then its deletion, under an id the section did not use, gives back the selected course |
| CourseEdits.CommitDeleteCourse | app/src/main/java/com/example/courseapp/viewmodel/CourseViewModel.kt:1083-1096 | a failed remote delete leaves the selection and both course lists as they were; a successful one applies the local delete |
| CourseEdits.CommitMediaUpdate | app/src/main/java/com/example/courseapp/viewmodel/CourseViewModel.kt:573-604 | the app crashes exactly when the upload fails, or a course is selected and its write fails; otherwise the selection is the course with the new url, or stays empty |
| CourseEdits.CommitMediaDelete | app/src/main/java/com/example/courseapp/viewmodel/CourseViewModel.kt:606-633 | the app crashes exactly when a course is selected and its write fails; otherwise the selection is the course with the url cleared, or stays empty |
| CourseEdits.FailedWriteGuardedOnlyByCatch | app/src/main/java/com/example/courseapp/viewmodel/CourseViewModel.kt:551-633 | the same failed write keeps the selection under the guarded commit and crashes `deleteLessonMedia` |
| CourseEdits.CommittedMediaDeleteIsEmptyUpload | app/src/main/java/com/example/courseapp/viewmodel/CourseViewModel.kt:573-633 | when nothing fails, deleting media and uploading the empty url select the same course |
| Learnizone.NewLearnCourse | frontend/app/src/main/java/com/example/learnizone/models/Course.java:36-57 | the constructor stores its arguments as given; a new course has no progress, students, completed sections or notes, is not downloaded and supports all four formats |
| Learnizone.GetDescription | frontend/app/src/main/java/com/example/learnizone/models/Course.java:96-99 | as written, the getter returns the same fixed placeholder text for every course |
| Learnizone.DescriptionNotReadBack | frontend/app/src/main/java/com/example/learnizone/models/Course.java:36-99 | a course built with any other description does not read it back through the getter |
| Learnizone.DescriptionReadBack | frontend/app/src/main/java/com/example/learnizone/models/Course.java:36-57 | with the corrected getter, every description reads back as the course was built with it |
| Learnizone.SectionData | frontend/app/src/main/java/com/example/learnizone/repositories/CourseRepository.java:163-168 | the section map carries the section's id, title, description and order and an empty subsection list |
| Learnizone.ReadModules | frontend/app/src/main/java/com/example/learnizone/repositories/CourseRepository.java:189 | the "modules" field reads back as a list of sections exactly when it holds a list |
| Learnizone.AddSectionToCourse | frontend/app/src/main/java/com/example/learnizone/repositories/CourseRepository.java:160-171 | as written, the "modules" field is overwritten with the new section's map alone |
| Learnizone.AddSectionLosesSections | frontend/app/src/main/java/com/example/learnizone/repositories/CourseRepository.java:160-189 | after adding a section to a course with sections, none of them can be read back, and the result is as if the course had none |
| Learnizone.AddSectionAppended | frontend/app/src/main/java/com/example/learnizone/repositories/CourseRepository.java:160-171 | the corrected write appends the new section's map to the list and keeps the earlier ones |
| Learnizone.AppendKeepsNumbering | frontend/app/src/main/java/com/example/learnizone/repositories/CourseRepository.java:160-171 | with the corrected write, a section numbered by the count of sections keeps every section readable and the numbering by position |
| Learnizone.FirstSectionWithId | frontend/app/src/main/java/com/example/learnizone/repositories/CourseRepository.java:190-191 | the position of the first section with the id, or -1 exactly when none has it |
| Learnizone.AddSubsectionToSection | frontend/app/src/main/java/com/example/learnizone/repositories/CourseRepository.java:173-205 | a missing course fails with "Course not found"; otherwise the subsection is appended to the first section with the id, creating its list if absent, and every other section is untouched |
| Learnizone.SubsectionLandsLast | frontend/app/src/main/java/com/example/learnizone/repositories/CourseRepository.java:189-199 | after adding, the first section with the id ends with the new subsection and has exactly one more |
| Learnizone.UpdateCourse | frontend/app/src/main/java/com/example/learnizone/repositories/CourseRepository.java:207-217 | the write succeeds exactly when the record passed in names the user as its instructor, whatever the stored record under that id says; it stores the record under its id while every other stored course keeps its value and no other id appears; otherwise it is refused |
| Learnizone.NonInstructorOverwrites | frontend/app/src/main/java/com/example/learnizone/repositories/CourseRepository.java:207-217 | a user who does not teach a stored course overwrites it, instructor included, by passing a record with that id that names themselves |
| Learnizone.NonInstructorOverwritesExample | frontend/app/src/main/java/com/example/learnizone/repositories/CourseRepository.java:207-217 | a concrete store where "mallory" replaces the course "alice" teaches |
| Learnizone.UpdateCourseChecked | frontend/app/src/main/java/com/example/learnizone/repositories/CourseRepository.java:207-217 | the evidently intended update: it succeeds exactly when the user teaches both the record passed in and the stored course under that id, if any, with the same frame as the update as written |
| Learnizone.CheckedUpdateAgrees | frontend/app/src/main/java/com/example/learnizone/repositories/CourseRepository.java:207-217 | the checked update equals the update as written on new ids and on courses the user already teaches, and succeeds only where the update as written does |
| Learnizone.DeleteCourse | frontend/app/src/main/java/com/example/learnizone/repositories/CourseRepository.java:219-241 | a missing course fails first; the delete succeeds exactly for the instructor, removing that id only while every other course keeps its value; anyone else is refused |
| Learnizone.DeleteUndoesNewCourse | frontend/app/src/main/java/com/example/learnizone/repositories/CourseRepository.java:207-241 | an instructor who writes a course under a new id, with the checked or the as-written update, and then deletes it gets the store back exactly as it was |
| Learnizone.OnlyInstructorChangesCourse | frontend/app/src/main/java/com/example/learnizone/repositories/CourseRepository.java:207-241 | with the checked update, someone who does not teach a stored course can neither overwrite nor delete it, whatever record they pass |
| Learnizone.SearchCourses | frontend/app/src/main/java/com/example/learnizone/repositories/CourseRepository.java:105-109 | exactly the courses whose title lies between the term and the term followed by U+F8FF, in collection order |
| Learnizone.SearchRangeIsPrefix | frontend/app/src/main/java/com/example/learnizone/repositories/CourseRepository.java:105-109 | the range is a prefix match: a title is found exactly when it starts with the term and what follows is nothing, starts below U+F8FF, or is U+F8FF alone |
| Learnizone.SearchFindsPrefixed | frontend/app/src/main/java/com/example/learnizone/repositories/CourseRepository.java:105-109 | every course whose title starts with the term, followed only by characters below U+F8FF, is found |
| Learnizone.NewModuleList | frontend/app/src/main/java/com/example/learnizone/adapters/ModuleAdapter.java:26-28 | the one-argument constructor keeps the modules and has no click listener |
| Learnizone.NewModuleListWithListener | frontend/app/src/main/java/com/example/learnizone/adapters/ModuleAdapter.java:30-33 | the two-argument constructor keeps the modules and has a click listener |
| Learnizone.ItemCount | frontend/app/src/main/java/com/example/learnizone/adapters/ModuleAdapter.java:49-52 | one row per module |
| Learnizone.ClickRow | frontend/app/src/main/java/com/example/learnizone/adapters/ModuleAdapter.java:65-73 | a click reaches the listener exactly when the row is bound, a listener exists and the module is not locked, and then it passes that row's module |
| Learnizone.NoListenerNoClicks | frontend/app/src/main/java/com/example/learnizone/adapters/ModuleAdapter.java:26-73 | an adapter built without a listener never forwards a click |
| Learnizone.StatusOf | frontend/app/src/main/java/com/example/learnizone/adapters/ModuleAdapter.java:80-90 | the completed icon exactly for completed modules, the lock exactly for locked ones not completed, the plain circle otherwise |
| Learnizone.CompletedButLocked | frontend/app/src/main/java/com/example/learnizone/adapters/ModuleAdapter.java:65-90 | a completed and locked module shows the completed icon, yet its clicks are not forwarded |
| Learnizone.AllCourses | frontend/app/src/main/java/com/example/learnizone/DataProvider.java:30-36 | the provider's list of all courses is empty |
| Learnizone.CoursesInProgress | frontend/app/src/main/java/com/example/learnizone/DataProvider.java:41-46 | the provider's in-progress list is empty |
| Learnizone.RecommendedCourses | frontend/app/src/main/java/com/example/learnizone/DataProvider.java:51-56 | the provider's recommended list is empty |
| Learnizone.PopularCourses | frontend/app/src/main/java/com/example/learnizone/DataProvider.java:61-67 | the provider's popular list is empty |
| Learnizone.CourseById | frontend/app/src/main/java/com/example/learnizone/DataProvider.java:17-25 | the first course with the id, or none exactly when no course has it |
| Learnizone.GetCourseByIdNeverFinds | frontend/app/src/main/java/com/example/learnizone/DataProvider.java:17-36 | since the provider's list is empty, no id is ever found |
| LessonNav.CurrentSection | CourseApp/app/src/main/java/com/example/courseapp/ui/screens/LessonScreen.kt:50 | the current section is a section of the course carrying the route's id; none means no section has it |
| LessonNav.GetOrNone | CourseApp/app/src/main/java/com/example/courseapp/ui/screens/LessonScreen.kt:51 | `getOrNull` yields the element exactly for an index inside the list |
| LessonNav.CurrentLesson | CourseApp/app/src/main/java/com/example/courseapp/ui/screens/LessonScreen.kt:51 | a lesson is shown exactly when the section exists and the index lies inside its lessons |
| LessonNav.SectionIndex | CourseApp/app/src/main/java/com/example/courseapp/ui/screens/LessonScreen.kt:53 | the index of the current section lies between -1 and the last index |
| LessonNav.SectionIndexById | CourseApp/app/src/main/java/com/example/courseapp/ui/screens/LessonScreen.kt:50-53 | the index of the current section is the index of the first section carrying the route's id |
| LessonNav.UnknownSectionHasNext | CourseApp/app/src/main/java/com/example/courseapp/ui/screens/LessonScreen.kt:53 | a route to a section the course lacks still reports a next section whenever the course has any section |
| LessonNav.Next | CourseApp/app/src/main/java/com/example/courseapp/ui/screens/LessonScreen.kt:280-304 | Next leads to the following lesson of the section, else to lesson 0 of the following section (the first one when the current section is unknown), and nowhere when disabled |
| LessonNav.NextEnabledIffTarget | CourseApp/app/src/main/java/com/example/courseapp/ui/screens/LessonScreen.kt:280-305 | Next leads somewhere exactly when it is enabled |
| LessonNav.NextInSectionShowsLesson | CourseApp/app/src/main/java/com/example/courseapp/ui/screens/LessonScreen.kt:52 | moving to the next lesson of the same section lands on a lesson that exists |
| LessonNav.Previous | CourseApp/app/src/main/java/com/example/courseapp/ui/screens/LessonScreen.kt:261-273 | Previous is enabled exactly for a positive index and leads one lesson back in the same section |
| LessonNav.PreviousNextInverse | CourseApp/app/src/main/java/com/example/courseapp/ui/screens/LessonScreen.kt:261-305 | inside one section, Previous undoes Next and Next undoes Previous |
| LessonNav.ClickMarkCompleted | CourseApp/app/src/main/java/com/example/courseapp/ui/screens/LessonScreen.kt:229-243 | the button sends the progress update for the signed-in user and the shown lesson and then disables itself; a disabled button, no lesson or no user sends nothing |
| LessonNav.MarkCompletedOnce | CourseApp/app/src/main/java/com/example/courseapp/ui/screens/LessonScreen.kt:229-243 | a second click never sends a second update |
| LessonNav.LessonById | CourseApp/app/src/main/java/com/example/courseapp/ui/screens/LessonDetailsScreen.kt:57-58 | the details screen finds a lesson of the current section with the id, or none when the section has no such lesson |
| LessonNav.LookupsAgree | CourseApp/app/src/main/java/com/example/courseapp/ui/screens/LessonScreen.kt:51 | with distinct lesson ids, looking the shown lesson up by its id finds the same lesson |
| Notes.LoadNotes | app/src/main/java/com/example/courseapp/viewmodel/NoteViewModel.kt:27-47 | the pair last loaded is a no-op; any other pair is remembered and the list becomes the fetched one, with loading ended and the error kept |
| Notes.LoadNotesOnce | app/src/main/java/com/example/courseapp/viewmodel/NoteViewModel.kt:28-30 | loading the same user and lesson a second time changes nothing, whatever the store would now return |
| Notes.SavedNote | app/src/main/java/com/example/courseapp/repository/NoteRepository.kt:14-23 | the saved note gets a fresh id when it has none and keeps its own otherwise; every other field is kept |
| Notes.PutNote | app/src/main/java/com/example/courseapp/viewmodel/NoteViewModel.kt:55-62 | the first note with the saved id is replaced in place and the rest kept; with no such note the saved one is put first |
| Notes.SaveNote | app/src/main/java/com/example/courseapp/viewmodel/NoteViewModel.kt:49-72 | a successful save puts the saved note into the list; a failed one keeps the list and records the message; loading ends either way |
| Notes.DeleteNote | app/src/main/java/com/example/courseapp/viewmodel/NoteViewModel.kt:74-90 | a successful delete keeps exactly the notes with other ids in their order; a failed one keeps the list and records the message |
| Notes.ClearError | app/src/main/java/com/example/courseapp/viewmodel/NoteViewModel.kt:92-94 | the error is cleared and nothing else changes |
| Notes.DeleteUndoesSave | app/src/main/java/com/example/courseapp/viewmodel/NoteViewModel.kt:49-90 | deleting a note just saved leaves the list as deleting its id would have left it before the save |
| Notes.SaveIdempotent | app/src/main/java/com/example/courseapp/viewmodel/NoteViewModel.kt:49-72 | saving a note that has an id twice gives the same state as saving it once |
| OfflineStore.Upsert | app/src/main/java/com/example/courseapp/local/CourseDao.kt:14-15 | an insert with REPLACE leaves the new row in the table, drops exactly the old rows with its key and keeps every other row |
| OfflineStore.UpsertKeepsKeysUnique | app/src/main/java/com/example/courseapp/local/CourseDao.kt:14-47 | REPLACE keeps the primary key unique: a table whose ids are distinct still has distinct ids after an insert |
| OfflineStore.UpsertFresh | app/src/main/java/com/example/courseapp/local/CourseDao.kt:14-15 | a row whose id is new to the table is appended and nothing else changes |
| OfflineStore.UpsertAllFresh | app/src/main/java/com/example/courseapp/local/CourseDao.kt:30-47 | a list insert of rows with distinct ids that are new to the table appends them in order |
| OfflineStore.SectionsForCourse | app/src/main/java/com/example/courseapp/local/CourseDao.kt:24-25 | exactly the section rows of the course, each as often as stored, sorted ascending by order |
| OfflineStore.LessonsForSection | app/src/main/java/com/example/courseapp/local/CourseDao.kt:40-41 | exactly the lesson rows of the section, each as often as stored, sorted ascending by order |
| OfflineStore.LessonsForCourse | app/src/main/java/com/example/courseapp/local/CourseDao.kt:37-38 | exactly the lesson rows of the course, each as often as stored, sorted ascending by order |
| OfflineStore.GetDownloadedCourse | app/src/main/java/com/example/courseapp/local/CourseDao.kt:11-12 | null exactly when no course row has the id; otherwise a stored row with that id |
| OfflineStore.InsertThenGetCourse | app/src/main/java/com/example/courseapp/local/CourseDao.kt:11-15 | a course row just inserted is the row read back by its id, whatever the table held before |
| OfflineStore.DeleteCourseById | app/src/main/java/com/example/courseapp/local/CourseDao.kt:20-21 | exactly the course rows with the id are deleted, the rest keep their order, the other tables are untouched |
| OfflineStore.DeleteSectionsForCourse | app/src/main/java/com/example/courseapp/local/CourseDao.kt:33-34 | exactly the course's section rows are deleted, the rest keep their order, the other tables are untouched |
| OfflineStore.DeleteLessonsForCourse | app/src/main/java/com/example/courseapp/local/CourseDao.kt:49-50 | exactly the course's lesson rows are deleted, the rest keep their order, the other tables are untouched |
| OfflineStore.UpdateLessonPath | app/src/main/java/com/example/courseapp/local/CourseDao.kt:52-59 | only the chosen path column of the rows with the lesson id changes; every other row and column is kept |
| OfflineStore.SectionRows | app/src/main/java/com/example/courseapp/viewmodel/CourseViewModel.kt:1241-1248 | one section row per section, carrying the course id and the section's position as order |
| OfflineStore.Downloaded | app/src/main/java/com/example/courseapp/viewmodel/CourseViewModel.kt:1276-1297 | a lesson gets a local path for a medium exactly when its url is non-empty |
| OfflineStore.SectionLessonRows | app/src/main/java/com/example/courseapp/viewmodel/CourseViewModel.kt:1264-1273 | one lesson row per lesson of the section, carrying the lesson's position within its section as order |
| OfflineStore.TotalItemsArePaths | app/src/main/java/com/example/courseapp/viewmodel/CourseViewModel.kt:1252-1297 | the totalItems count equals the number of local paths set over all lesson rows the download writes |
| OfflineStore.LessonRowKeys | app/src/main/java/com/example/courseapp/viewmodel/CourseViewModel.kt:1263-1301 | the ids of the lesson rows written are the lesson ids of the course, section by section |
| OfflineStore.LessonRowsOfSection | app/src/main/java/com/example/courseapp/viewmodel/CourseViewModel.kt:1263-1301 | when section ids are distinct, the rows filed under a section are exactly that section's rows |
| OfflineStore.DownloadAppendsSections | app/src/main/java/com/example/courseapp/viewmodel/CourseViewModel.kt:1241-1249 | into a store holding nothing of the course, the section rows are appended unchanged |
| OfflineStore.DownloadAppendsLessons | app/src/main/java/com/example/courseapp/viewmodel/CourseViewModel.kt:1263-1301 | into a store holding nothing of the course, the lesson rows are appended unchanged |
| OfflineStore.DownloadedSectionRows | app/src/main/java/com/example/courseapp/viewmodel/CourseViewModel.kt:1241-1249 | after a download, reading the course's sections gives back the rows written, in course order |
| OfflineStore.DownloadedLessonRows | app/src/main/java/com/example/courseapp/viewmodel/CourseViewModel.kt:1263-1301 | after a download, reading a section's lessons gives back that section's rows, in section order |
| OfflineStore.DecodeLesson | app/src/main/java/com/example/courseapp/viewmodel/CourseViewModel.kt:1195-1203 | a stored lesson keeps its id, title, description and duration; each url is the stored local path, or "" when none was stored |
| OfflineStore.DecodeSection | app/src/main/java/com/example/courseapp/viewmodel/CourseViewModel.kt:1189-1206 | a stored section keeps its id and title, holds one decoded lesson per stored lesson of the section in stored order, and has no quizzes |
| OfflineStore.DecodeCourse | app/src/main/java/com/example/courseapp/viewmodel/CourseViewModel.kt:1187-1215 | the rebuilt course keeps the row's id, title, description, instructor and category; image, duration, rating, price and student count take the `Course` defaults and `createdAt` the clock; its sections are the decoded stored sections of the course in stored order, without quizzes |
| OfflineStore.LoadDownloadedCourses | app/src/main/java/com/example/courseapp/viewmodel/CourseViewModel.kt:1184-1217 | one rebuilt course per stored course row, in table order |
| OfflineStore.DecodedSection | app/src/main/java/com/example/courseapp/viewmodel/CourseViewModel.kt:1190-1301 | each downloaded section loads back with its id, title and lessons, with urls replaced by local paths |
| OfflineStore.DownloadRoundTrip | app/src/main/java/com/example/courseapp/viewmodel/CourseViewModel.kt:1184-1313 | downloading a course and loading its row back gives its offline copy: same fields kept, same sections and lessons in order, local paths for non-empty urls |
| OfflineStore.DownloadThenLoad | app/src/main/java/com/example/courseapp/viewmodel/CourseViewModel.kt:1303-1304 | after a download, the loaded course list contains the course's offline copy |
| OfflineStore.RemoveDownloadedCourse | app/src/main/java/com/example/courseapp/viewmodel/CourseViewModel.kt:1333-1356 | exactly the course's lesson rows, section rows and course row are deleted |
| OfflineStore.RemoveUndoesDownload | app/src/main/java/com/example/courseapp/viewmodel/CourseViewModel.kt:1224-1356 | removing a course just downloaded into a store that held nothing of it restores the store exactly |
| PdfPager.Open | CourseApp/app/src/main/java/com/example/courseapp/ui/screens/LessonDetailsScreen.kt:344-382 | the preview opens on page 0 with the renderer's page count, inside the page range |
| PdfPager.Previous | CourseApp/app/src/main/java/com/example/courseapp/ui/screens/LessonDetailsScreen.kt:421-422 | Previous moves one page back exactly when above page 0, keeps the page count and never leaves the range |
| PdfPager.Next | CourseApp/app/src/main/java/com/example/courseapp/ui/screens/LessonDetailsScreen.kt:426-427 | Next moves one page on exactly when below the last page, keeps the page count and never leaves the range |
| PdfPager.PreviousNextInverse | CourseApp/app/src/main/java/com/example/courseapp/ui/screens/LessonDetailsScreen.kt:421-427 | each button undoes the other whenever the first one moved |
| PdfPager.PressesKeepValid | CourseApp/app/src/main/java/com/example/courseapp/ui/screens/LessonDetailsScreen.kt:421-427 | no sequence of presses leaves the page range or changes the page count |
| PdfPager.NextPressesSaturate | CourseApp/app/src/main/java/com/example/courseapp/ui/screens/LessonDetailsScreen.kt:426-427 | n presses of Next reach min(page + n, last page) |
| PdfPager.LabelDistinguishesPages | CourseApp/app/src/main/java/com/example/courseapp/ui/screens/LessonDetailsScreen.kt:424 | two pages of the same document never show the same "Page x of n" label |
| Progress.CalculateProgress | app/src/main/java/com/example/courseapp/viewmodel/CourseViewModel.kt:893-899 | the percentage is the completed share of all lessons rounded down, and 0 for a course without lessons |
| Progress.ProgressBounds | app/src/main/java/com/example/courseapp/viewmodel/CourseViewModel.kt:893-899 | with no more completed lessons than lessons the percentage is at most 100, and is 100 exactly when all are completed |
| Progress.ProgressMonotone | app/src/main/java/com/example/courseapp/viewmodel/CourseViewModel.kt:893-899 | more completed lessons never lower the percentage |
| Progress.CompleteLesson | app/src/main/java/com/example/courseapp/viewmodel/CourseViewModel.kt:199-203 | a lesson id is appended unless it is already recorded; the recorded ids stay free of repeats |
| Progress.CompleteLessonIdempotent | app/src/main/java/com/example/courseapp/viewmodel/CourseViewModel.kt:199-203 | completing the same lesson twice is completing it once |
| Progress.ConsistentBounds | app/src/main/java/com/example/courseapp/viewmodel/CourseViewModel.kt:199-211 | an enrollment whose ids are distinct lesson ids of the course and whose percentage matches them reads between 0 and 100, and 100 exactly when every lesson is completed |
| Progress.NewEnrollmentConsistent | app/src/main/java/com/example/courseapp/viewmodel/CourseViewModel.kt:150-160 | a fresh enrollment is consistent with every course |
| Progress.XpAwarded | app/src/main/java/com/example/courseapp/viewmodel/CourseViewModel.kt:222-224 | two XP are awarded exactly when the lesson's section became complete, otherwise none |
| Progress.TotalLessonsPositive | app/src/main/java/com/example/courseapp/viewmodel/CourseViewModel.kt:193-211 | a course with a section holding the lesson has at least one lesson, so the division cannot fail |
| Progress.UpdateCourseProgress | app/src/main/java/com/example/courseapp/viewmodel/CourseViewModel.kt:162-249 | with no enrollment nothing happens; with the course and a section holding the lesson, the id is recorded once, the percentage is recomputed over all lessons, the section counts as completed exactly when all its ids are recorded, and a certificate is due exactly at 100 |
| Progress.UpdateCourseProgressKeepsConsistent | app/src/main/java/com/example/courseapp/viewmodel/CourseViewModel.kt:162-249 | completing a lesson keeps a consistent enrollment consistent, so its percentage stays within 0..100 |
| Progress.FailedAttemptsAppend | app/src/main/java/com/example/courseapp/viewmodel/CourseViewModel.kt:782-795 | storing an attempt before counting adds one to the failed count exactly when it is a failed try at the same quiz |
| Progress.AttemptsAllowed | app/src/main/java/com/example/courseapp/viewmodel/CourseViewModel.kt:798-800 | the allowance is the quiz's own, or 3 when the course, the section or the quiz is missing |
| Progress.ResetSection | app/src/main/java/com/example/courseapp/viewmodel/CourseViewModel.kt:815-816 | the reset strikes out exactly the section's lesson ids and keeps the other ids in order |
| Progress.SaveQuizAttempt | app/src/main/java/com/example/courseapp/viewmodel/CourseViewModel.kt:753-855 | the attempt is always stored; a failed try reaching the allowance strikes the section's lessons and recomputes the percentage; a passed try only recomputes it; any other failed try changes nothing |
| Progress.SaveQuizAttemptKeepsConsistent | app/src/main/java/com/example/courseapp/viewmodel/CourseViewModel.kt:753-855 | saving an attempt keeps a consistent enrollment consistent |
| Progress.CanTakeQuiz | app/src/main/java/com/example/courseapp/viewmodel/CourseViewModel.kt:857-891 | a signed-in enrolled student may take the quiz exactly when every lesson of the section is completed; in every other case the answer is no |
| Progress.CompleteAllContains | app/src/main/java/com/example/courseapp/viewmodel/CourseViewModel.kt:199-203 | completing a list of lessons one by one records exactly the earlier ids plus the list |
| Progress.CompletingSectionUnlocksQuiz | app/src/main/java/com/example/courseapp/viewmodel/CourseViewModel.kt:857-891 | once every lesson of a section is completed, its quiz unlocks |
| Progress.ResetLocksQuiz | app/src/main/java/com/example/courseapp/viewmodel/CourseViewModel.kt:802-891 | after the failed-attempt reset, a section with at least one lesson locks its quiz again |
| Progress.CompleteSection | app/src/main/java/com/example/courseapp/viewmodel/CourseViewModel.kt:1156-1182 | completing a section adds exactly one to the stored percentage with no upper clamp; without a user id or an enrollment nothing is written |
| Progress.CompleteSectionExceeds100 | app/src/main/java/com/example/courseapp/viewmodel/CourseViewModel.kt:1169 | a course at 100 percent whose section is completed again reads 101 |
| Progress.UpdateUserXp | app/src/main/java/com/example/courseapp/viewmodel/CourseViewModel.kt:1140-1154 | an existing user's XP grows by exactly the amount; a missing user stays missing |
| ProgressStats.CompletedCount | CourseApp/app/src/main/java/com/example/courseapp/ui/screens/ProgressScreen.kt:168-172 | the "Courses Completed" figure is the number of entries whose progress is 100 or more, so it never exceeds the entries and is 0 exactly when no entry has reached 100 percent |
| ProgressStats.InProgress | CourseApp/app/src/main/java/com/example/courseapp/ui/screens/ProgressScreen.kt:186-188 | exactly the entries below 100 percent whose course is enrolled, in their order |
| ProgressStats.CompletedAndInProgressDisjoint | CourseApp/app/src/main/java/com/example/courseapp/ui/screens/ProgressScreen.kt:168-188 | no entry is both completed and in progress; the two counts never exceed the entries and add up to them when every course is enrolled |
| ProgressStats.OverallPercent | CourseApp/app/src/main/java/com/example/courseapp/ui/screens/ProgressScreen.kt:138-149 | the "% Complete" figure is the mean progress rounded down, and 0 with no entries |
| ProgressStats.OverallPercentBounds | CourseApp/app/src/main/java/com/example/courseapp/ui/screens/ProgressScreen.kt:138-149 | progress values within 0..100 give a figure within 0..100, and 100 when every course is at 100 |
| ProgressStats.Cards | CourseApp/app/src/main/java/com/example/courseapp/ui/screens/ProgressScreen.kt:160-173 | "Courses Enrolled" counts the enrolled list while "Courses Completed" counts the entries at 100 percent or more |
| QuizEditor.NewQuestionForm | CourseApp/app/src/main/java/com/example/courseapp/ui/screens/QuizEditorScreen.kt:179-183 | the dialog opens on multiple choice with empty fields and a points field that parses to 1 |
| QuizEditor.TypeStaysMultipleChoice | CourseApp/app/src/main/java/com/example/courseapp/ui/screens/QuizEditorScreen.kt:199-222 | the type menu is never expanded, so whatever the user does the question type stays multiple choice |
| QuizEditor.ParseOptions | CourseApp/app/src/main/java/com/example/courseapp/ui/screens/QuizEditorScreen.kt:257-261 | multiple-choice options are the lines of the text that are not blank, in order; other kinds get no options |
| QuizEditor.OptionsRoundTrip | CourseApp/app/src/main/java/com/example/courseapp/ui/screens/QuizEditorScreen.kt:258 | options written one per line, none blank, are read back exactly and in order |
| QuizEditor.FormQuestion | CourseApp/app/src/main/java/com/example/courseapp/ui/screens/QuizEditorScreen.kt:257-271 | the built question carries the dialog's text, kind, answer and parsed options, and the points field's integer value, or 1 when it does not parse |
| QuizEditor.ConfirmAddQuestion | CourseApp/app/src/main/java/com/example/courseapp/ui/screens/QuizEditorScreen.kt:255-274 | Add closes the dialog and adds the question exactly when question text and answer are both non-blank; otherwise nothing changes and the dialog stays |
| QuizEditor.AddedQuestionWellFormed | CourseApp/app/src/main/java/com/example/courseapp/ui/screens/QuizEditorScreen.kt:255-274 | every question the dialog adds has non-blank text, answer and options, and is the last question of each targeted quiz |
| QuizEditor.DeleteUndoesConfirmedAdd | CourseApp/app/src/main/java/com/example/courseapp/ui/screens/QuizEditorScreen.kt:255-274 | deleting the question just added under a new id restores the course |
| QuizEditor.SaveDescription | CourseApp/app/src/main/java/com/example/courseapp/ui/screens/QuizEditorScreen.kt:64-66 | Save writes the field's text verbatim as the targeted quiz's description and changes nothing else |
| QuizEditor.SaveUntouchedErases | CourseApp/app/src/main/java/com/example/courseapp/ui/screens/QuizEditorScreen.kt:31-66 | the field starts empty, not with the stored text, so pressing Save untouched erases the description |
| QuizTaking.TruncDiv | CourseApp/app/src/main/java/com/example/courseapp/ui/screens/QuizTakingScreen.kt:164 | Kotlin's integer division: for a non-negative dividend the largest multiple of the divisor not above it, for a negative one the smallest multiple not below it |
| QuizTaking.TruncDivUnique | CourseApp/app/src/main/java/com/example/courseapp/ui/screens/QuizTakingScreen.kt:164 | any quotient meeting the truncating bracket is the one Kotlin computes |
| QuizTaking.TruncDivOdd | CourseApp/app/src/main/java/com/example/courseapp/ui/screens/QuizTakingScreen.kt:164 | truncating division is symmetric in the sign of the dividend |
| QuizTaking.EarnedWithinTotal | CourseApp/app/src/main/java/com/example/courseapp/ui/screens/QuizTakingScreen.kt:160-163 | with non-negative points, the earned points lie between 0 and the quiz total |
| QuizTaking.AllCorrectEarnsAll | CourseApp/app/src/main/java/com/example/courseapp/ui/screens/QuizTakingScreen.kt:160-163 | when every answer is right, the earned points are the total |
| QuizTaking.ScoreBounds | CourseApp/app/src/main/java/com/example/courseapp/ui/screens/QuizTakingScreen.kt:160-164 | with non-negative points the score is within 0..100, and every answer right on a quiz worth something scores 100 |
| QuizTaking.FailedQuestions | CourseApp/app/src/main/java/com/example/courseapp/ui/screens/QuizTakingScreen.kt:168-170 | the failed questions are exactly the wrongly answered or unanswered ones, in quiz order |
| QuizTaking.FailedPartition | CourseApp/app/src/main/java/com/example/courseapp/ui/screens/QuizTakingScreen.kt:160-170 | failed and correctly answered questions split the quiz between them, as multisets |
| QuizTaking.NoFailuresIffFullMarks | CourseApp/app/src/main/java/com/example/courseapp/ui/screens/QuizTakingScreen.kt:160-170 | when every question is worth a point or more, no failed question is the same as full marks |
| QuizTaking.Submit | CourseApp/app/src/main/java/com/example/courseapp/ui/screens/QuizTakingScreen.kt:158-185 | Submit computes the score over the quiz's questions, passes exactly at or above the pass mark (70 without a quiz), lists the failed questions and requests resources exactly for a failed attempt at an existing quiz |
| QuizTaking.PassNeverRequestsResources | CourseApp/app/src/main/java/com/example/courseapp/ui/screens/QuizTakingScreen.kt:173-181 | a passing submission never asks for recommended resources |
| QuizTaking.SubmitEnabledIffAllAnswered | CourseApp/app/src/main/java/com/example/courseapp/ui/screens/QuizTakingScreen.kt:145-187 | with distinct question ids and answers recorded only by the question cards, Submit is enabled exactly when every question has an answer |
| QuizTaking.RecordAnswer | CourseApp/app/src/main/java/com/example/courseapp/ui/screens/QuizTakingScreen.kt:149-151 | a card's change sets that question's answer and keeps every other answer |
| QuizTaking.TicksFloor | CourseApp/app/src/main/java/com/example/courseapp/ui/screens/QuizTakingScreen.kt:49-54 | from a non-negative start, n minute ticks leave max(0, start - n) minutes: the countdown stops at 0 |
| RemoteRepository.RepoCalculateProgress | app/src/main/java/com/example/courseapp/repository/CourseRepository.kt:209-215 | the repository's percentage is the completed share rounded down, and 0 for a non-positive total |
| RemoteRepository.RepoProgressAgrees | app/src/main/java/com/example/courseapp/repository/CourseRepository.kt:209-215 | the repository's percentage rule agrees with the view model's for every count |
| RemoteRepository.GetTotalLessons | app/src/main/java/com/example/courseapp/repository/CourseRepository.kt:217-221 | the lesson count is a stub that reports no lessons for any course |
| RemoteRepository.RepoUpdateCourseProgress | app/src/main/java/com/example/courseapp/repository/CourseRepository.kt:126-141 | the repository appends the lesson id without checking whether it is already recorded; a missing enrollment stays missing |
| RemoteRepository.RepoProgressAlwaysZero | app/src/main/java/com/example/courseapp/repository/CourseRepository.kt:133-221 | because of the stub, every percentage the repository stores is 0 |
| RemoteRepository.RepoRepeatDuplicates | app/src/main/java/com/example/courseapp/repository/CourseRepository.kt:132 | completing a recorded lesson through the repository records it twice, while the view model leaves the list unchanged |
| RemoteRepository.EnrollmentKey | app/src/main/java/com/example/courseapp/repository/CourseRepository.kt:113 | the enrollment key is the user id, an underscore and the course id |
| RemoteRepository.EnrollmentKeyDecodes | app/src/main/java/com/example/courseapp/repository/CourseRepository.kt:113 | for ids without an underscore, splitting the key at the underscore gives back both ids |
| RemoteRepository.EnrollInCourse | app/src/main/java/com/example/courseapp/repository/CourseRepository.kt:106-124 | enrolling writes a fresh enrollment under the pair's key and raises the course's enrolment count by exactly one, keeping its other fields |
| RemoteRepository.TimestampIdInjective | app/src/main/java/com/example/courseapp/repository/CourseRepository.kt:158-185 | two ids made under the same parent at different instants differ |
| RemoteRepository.RepoAddSection | app/src/main/java/com/example/courseapp/repository/CourseRepository.kt:156-172 | the repository appends an empty section whose id is "<courseId>_<millis>" and keeps every earlier section |
| RemoteRepository.RepoAddLesson | app/src/main/java/com/example/courseapp/repository/CourseRepository.kt:174-207 | the repository appends the lesson with id "<sectionId>_<millis>" to each section with the id and changes nothing else |
| RemoteRepository.ContentType | app/src/main/java/com/example/courseapp/repository/CourseRepository.kt:264-270 | the content type follows the first matching suffix in the order jpg/jpeg, png, pdf, mp4, with octet-stream otherwise |
| RemoteRepository.ContentTypeOfExtension | app/src/main/java/com/example/courseapp/viewmodel/CourseViewModel.kt:477-487 | a name carrying the extension of a known content type is uploaded under that same content type |
| RemoteRepository.UploadPathContentType | app/src/main/java/com/example/courseapp/viewmodel/CourseViewModel.kt:636-645 | a lesson upload of kind image, video or PDF is stored as JPEG, MP4 or PDF; an unknown kind is stored as octet-stream |
| Routes.SingleTemplatesMatchRoutes | CourseApp/app/src/main/java/com/example/courseapp/navigation/Screen.kt:19-35 | the course-detail, course-editor and certificate routes are their prefix followed by one placeholder for their parameter |
| Routes.LessonTemplateMatches | CourseApp/app/src/main/java/com/example/courseapp/navigation/Screen.kt:25 | the lesson route is "lesson" followed by placeholders for course id, section id and lesson index, in that order |
| Routes.LessonDetailsTemplateMatches | CourseApp/app/src/main/java/com/example/courseapp/navigation/Screen.kt:36 | the lesson-details route is its prefix followed by placeholders for course, section and lesson id |
| Routes.QuizEditorTemplateMatches | CourseApp/app/src/main/java/com/example/courseapp/navigation/Screen.kt:45 | the quiz-editor route is its prefix followed by placeholders for course, section and quiz id |
| Routes.QuizTakingTemplateMatches | CourseApp/app/src/main/java/com/example/courseapp/navigation/Screen.kt:54 | the quiz-taking route is its prefix followed by placeholders for course, section and quiz id |
| Routes.RoutesDistinct | CourseApp/app/src/main/java/com/example/courseapp/navigation/Screen.kt:7-71 | the twenty-six screens are registered under twenty-six different routes |
| Routes.CourseDetailRoute | CourseApp/app/src/main/java/com/example/courseapp/navigation/Screen.kt:23 | the built route is the registered route with the course id in place of its placeholder |
| Routes.CourseEditorRoute | CourseApp/app/src/main/java/com/example/courseapp/navigation/Screen.kt:34 | the built route is the registered route with the course id in place of its placeholder |
| Routes.CertificateRoute | CourseApp/app/src/main/java/com/example/courseapp/navigation/Screen.kt:64 | the built route is the registered route with the certificate id in place of its placeholder |
| Routes.LessonRoute | CourseApp/app/src/main/java/com/example/courseapp/navigation/Screen.kt:26-27 | the built route is the registered route with the two ids and the decimal lesson index in place of its placeholders |
| Routes.LessonDetailsRoute | CourseApp/app/src/main/java/com/example/courseapp/navigation/Screen.kt:42-43 | the built route is the registered route with the three ids in place of its placeholders |
| Routes.QuizEditorRoute | CourseApp/app/src/main/java/com/example/courseapp/navigation/Screen.kt:51-52 | the built route is the registered route with the three ids in place of its placeholders |
| Routes.QuizTakingRoute | CourseApp/app/src/main/java/com/example/courseapp/navigation/Screen.kt:60-61 | the built route is the registered route with the three ids in place of its placeholders |
| Routes.SingleArgumentInjective | CourseApp/app/src/main/java/com/example/courseapp/navigation/Screen.kt:19-35 | a single-argument route determines its argument: different ids build different routes |
| Routes.MultiArgumentInjective | CourseApp/app/src/main/java/com/example/courseapp/navigation/Screen.kt:36-62 | when course and section ids contain no '/', a three-argument route determines all three values |
| Routes.LessonRouteInjective | CourseApp/app/src/main/java/com/example/courseapp/navigation/Screen.kt:25-28 | when the ids contain no '/', the lesson route determines the course id, section id and lesson index |
| Routes.SlashInIdCollides | CourseApp/app/src/main/java/com/example/courseapp/navigation/Screen.kt:42-43 | an id containing '/' lets two different argument lists build the same route, so the values cannot be read back |
| Sorting.SortBy | app/src/main/java/com/example/courseapp/local/CourseDao.kt:24-40 | ORDER BY order ASC returns a permutation of the matching rows, sorted ascending by the key |
| Sorting.SortBySortedIdentity | app/src/main/java/com/example/courseapp/local/CourseDao.kt:24-40 | rows already in key order come back unchanged |
| Sorting.SortByStable | app/src/main/java/com/example/courseapp/local/CourseDao.kt:24-40 | rows with equal keys keep their relative order |
| Text.ParseInt | CourseApp/app/src/main/java/com/example/courseapp/ui/screens/QuizEditorScreen.kt:271 | toIntOrNull yields a value exactly for a non-empty run of digits after an optional sign whose magnitude fits in 32 bits, and the value is that magnitude, negated after a minus sign |
| Text.ParseIntShape | CourseApp/app/src/main/java/com/example/courseapp/ui/screens/QuizEditorScreen.kt:271 | a successful parse read a minus sign exactly for a negative value (or minus zero), and after the sign only leading zeros followed by the printed digits of the value |
| Text.ParseIntToString | app/src/main/java/com/example/courseapp/ui/screens/CourseEditorScreen.kt:563-565 | every 32-bit value typed in decimal parses back to itself |
| Text.IntToStringInjective | app/src/main/java/com/example/courseapp/ui/screens/CourseEditorScreen.kt:563-565 | distinct integers print as distinct strings |
| Text.TrimEmptyIff | frontend/app/src/main/java/com/example/learnizone/activities/CreateCourseActivity.java:128-131 | trim leaves nothing exactly when every character is at most U+0020 |
| Text.TrimIdempotent | frontend/app/src/main/java/com/example/learnizone/activities/CreateCourseActivity.java:128-131 | trimming a trimmed field changes nothing |
| Text.ContainsIff | CourseApp/app/src/main/java/com/example/courseapp/ui/screens/HomeScreen.kt:66-68 | contains holds exactly when the query occurs at some position of the text |
| Text.JoinSplit | CourseApp/app/src/main/java/com/example/courseapp/ui/screens/QuizEditorScreen.kt:258 | splitting on a newline and joining the parts back with newlines gives the input |
| Text.SplitJoin | CourseApp/app/src/main/java/com/example/courseapp/ui/screens/QuizEditorScreen.kt:258 | joining newline-free lines and splitting on newlines gives the lines back |
| Validation.FirstFailure | CourseApp/app/src/main/java/com/example/courseapp/ui/screens/SettingsScreen.kt:253-265 | no message exactly when every check passes; otherwise the message of a failing check all of whose predecessors pass |
| Validation.ChangePassword | CourseApp/app/src/main/java/com/example/courseapp/ui/screens/SettingsScreen.kt:252-265 | the change goes ahead exactly when no field is blank, the new password equals its confirmation and has at least six characters; blank fields are reported first |
| Validation.ChangePasswordFirstFailure | CourseApp/app/src/main/java/com/example/courseapp/ui/screens/SettingsScreen.kt:253-265 | the dialog shows the first failure among a blank field, a mismatch and a short new password |
| Validation.ShortCurrentPasswordAccepted | CourseApp/app/src/main/java/com/example/courseapp/ui/screens/SettingsScreen.kt:253-265 | the current password's length is never checked |
| Validation.DeleteAccount | CourseApp/app/src/main/java/com/example/courseapp/ui/screens/SettingsScreen.kt:314-320 | the delete goes ahead exactly when the password is not blank; otherwise the password prompt is shown |
| Validation.EditProfile | CourseApp/app/src/main/java/com/example/courseapp/ui/screens/SettingsScreen.kt:161-169 | a blank name or email is reported before the email format; the save goes ahead exactly when both are filled and the email matches |
| Validation.ProfileFailureMessage | CourseApp/app/src/main/java/com/example/courseapp/ui/screens/SettingsScreen.kt:174-182 | "email-already-in-use" in the error picks its message first, then "requires-recent-login"; any other error, or one without a message, gets the generic text |
| Validation.SignUpScreen | app/src/main/java/com/example/courseapp/ui/screens/SignUpScreen.kt:188-196 | sign-up goes ahead exactly when no field is blank and the passwords match; blank fields are reported first |
| Validation.SignUpHasNoLengthRule | app/src/main/java/com/example/courseapp/ui/screens/SignUpScreen.kt:188-196 | any matching non-blank password passes, however short |
| Validation.LearnizoneSignUp | frontend/app/src/main/java/com/example/learnizone/SignUpActivity.java:51-88 | the account is created exactly when the trimmed name and email are non-empty and the trimmed password has six characters or more, with the trimmed values and the role of the checked button |
| Validation.SignUpTrims | frontend/app/src/main/java/com/example/learnizone/SignUpActivity.java:52-54 | leading and trailing spaces never change the sign-up's outcome |
| Validation.HomeFor | frontend/app/src/main/java/com/example/learnizone/SignUpActivity.java:95-99 | "etudiant" goes to the student home and any other role to the teacher dashboard |
| Validation.SignUpCompleted | frontend/app/src/main/java/com/example/learnizone/SignUpActivity.java:80-119 | the user moves on exactly when both the account and the user document are created, to the role's home; any failure leaves the button reset |
| Validation.LearnizoneLogin | frontend/app/src/main/java/com/example/learnizone/LoginActivity.java:45-61 | sign-in starts exactly when the trimmed email and password are non-empty, with the trimmed values and the button disabled; the email is checked first |
| Validation.LoginCompleted | frontend/app/src/main/java/com/example/learnizone/LoginActivity.java:64-105 | the user moves on exactly when sign-in succeeds and a role is stored, to the role's home; a missing role or any failure leaves the button reset |
| Validation.ButtonAfterAttempt | frontend/app/src/main/java/com/example/learnizone/LoginActivity.java:59-105 | a field error leaves the layout's button untouched; after a sign-in the button stays disabled when the user is sent on and is the enabled "Se connecter" button after any failure |
| Validation.LoginResetRestoresButton | frontend/app/src/main/java/com/example/learnizone/LoginActivity.java:59-105 | after a failed sign-in the button is enabled again, and it is back as it was before the attempt exactly when the layout showed the enabled "Se connecter" button |
| Validation.FieldText | app/src/main/java/com/example/learnizone/LoginActivity.java:73-74 | a field with text reads as that text and a field without as "" |
| Validation.DemoLogin | app/src/main/java/com/example/learnizone/LoginActivity.java:72-83 | any non-empty email and password go to the main screen; otherwise the fill-in message is shown |
| Validation.DemoSignUp | app/src/main/java/com/example/learnizone/SignupActivity.java:67-80 | three non-empty fields show the success message and close the screen; otherwise the fill-in message is shown |
| Validation.DemoAcceptsWhitespace | app/src/main/java/com/example/learnizone/LoginActivity.java:76 | whitespace is not trimmed: a single space in each field is accepted by both demo screens |

## Left out

- Firebase Auth, Firestore and Storage are not modelled. Each query, listener, transaction, batch, upload and download becomes explicit inputs and outputs: the documents read, the id the store assigns, and an optional failure message. The view model's course edits take that message in `CourseEdits.CommitEdit`, `CommitDeleteCourse`, `CommitMediaUpdate` and `CommitMediaDelete`; an uncaught failure is the outcome `Crash`, and the crash itself, an Android process exit, is not modelled further.
- Wrappers that only forward to Firebase carry no logic of their own. These are the auth view model, `DomainRepository` apart from its default domains, `NoteRepository` apart from its queries, and the credit-card view model.
- Coroutines, flows, `viewModelScope` ordering and lifecycle callbacks are not modelled. Each operation is one atomic step from state to state.
- Interleavings of concurrent callbacks are not modelled. One example: `addDefaultDomains` followed at once by a reload can read the collection before the writes land and add the defaults again. `Authoring.DefaultsStopReloading` starts from the state after the writes have landed.
- The order in which Firestore returns documents is not modelled. A query result is taken in collection order.
- Room's `ORDER BY` is modelled as a stable sort: rows with equal `order` keep insertion order. SQLite does not promise this.
- Floating point is left out: rating averages, download progress fractions, `progress / 12.5`, amounts divided by 100.0, and rating text. Ratings are carried as values and never computed with.
- ProgressStats.OverallPercent: the screen averages the progress values as a Double and truncates the percentage it shows. The model uses the truncated integer mean, which can differ from the Double result by rounding.
- Integers are unbounded. Int and Long overflow in counters, timestamps, points and progress sums is not modelled. The exception is `toIntOrNull`, which keeps its 32-bit range.
- UUIDs, `System.currentTimeMillis` and the random suffix of certificate numbers become parameters. Certificate generation and its PDF are not modelled.
- Android and library behaviour is not modelled: `Patterns.EMAIL_ADDRESS` (a parameter), the URL regex, notifications, PDF rendering, video and web views, and image loading.
- The network language-model call behind the external resources is not modelled, nor its line filter. The model records only when the request is made.
- Validation.ChangePassword: Java's `length()` counts UTF-16 code units and the model's `|s|` counts characters. A password of three emoji is 6 units in the app and passes the six-character minimum, while the model rejects it.
- Validation.LearnizoneSignUp: the six-character password minimum is checked on characters, not UTF-16 code units, for the same reason as `Validation.ChangePassword`.
- CardForm.EditCardNumber: the 19-character limit is checked on characters; Kotlin's `length` counts UTF-16 code units, so an input with characters outside the Basic Multilingual Plane can be rejected by the app and accepted by the model.
- CardForm.EditExpiry: the 5-character limit is checked on characters, not UTF-16 code units, as in `CardForm.EditCardNumber`.
- CardForm.EditCvv: the 4-character limit is checked on characters, not UTF-16 code units, as in `CardForm.EditCardNumber`.
- OfflineStore.CourseRow: the `downloadDate` column is written with the clock at insert time and never read back, so the row leaves it out.
- Text case conversion and digit tests cover ASCII only. Unicode case folding is left out, so a category such as "Éducation" compares only by exact characters.
- File-system work is left out. This includes the local-path helpers, the incomplete-quiz check, file deletes when a download is removed, and `downloadProgress`. A download that fails partway, leaving some rows written, is also not modelled.
- Java `List.remove(Object)` removes by identity in the domain pickers. The model identifies a domain by its (category, position) pair, because `Domain` defines no equality.
- Adapter aliasing is not modelled. `CourseAdapter` shares its current list with the fragment, and `DataProvider` returns a fresh list on each call. The model has no object identity and treats lists as values.
- `Course.isInstructor` is called by the learnizone repository but not defined in `models/Course.java`. It is modelled as "the stored instructor equals the user id".
- The null-uid check in `createCourse` cannot be reached, because `getUid()` on a signed-in user never yields null. The model takes the user id as given.
- A `toObject` that throws on a malformed document is not modelled. Documents are read as well-formed records or as absent.
- The view model's `addLessonToSection` draws a new UUID for each section whose id matches. The model uses one fresh id for all of them; the two differ only when section ids repeat.
- `completeSection` reads the enrollment under the document key "<user>_<course>", while `canTakeQuiz` finds it by a query on student and course. The model takes the enrollment as an input and assumes both reads find the same record.
- The login button's look before the first press comes from a layout file, which is not part of this model; it is a parameter of `Validation.ButtonAfterAttempt`, while the reset after a failure always writes the fixed enabled "Se connecter" button.
- CourseApp's screens import `com.example.courseapp.viewmodel.CourseViewModel`, but CourseApp's own view model is not part of this model. The CourseDetail, QuizEditor, LessonNav and QuizTaking models, and the download decode they rely on, follow app/'s app/src/main/java/com/example/courseapp/viewmodel/CourseViewModel.kt, which has the same package and class name.
- Presentation-only code is not modelled: layouts, themes, the navigation graph and drawer, and the screens and adapters that only display or navigate.
- The root-package `Course` class that `CourseAdapter` uses (frontend/app/src/main/java/com/example/learnizone/Course.java) is not part of this model. `CourseList.ListedCourse` carries the title, category and progress that the adapter reads.

## Findings

| source | as written | input that shows it | evidently intended | confidence | as-written member | corrected member |
|---|---|---|---|---|---|---|
| app/src/main/java/com/example/courseapp/ui/screens/CourseEditorScreen.kt:476-493 | the add-lesson dialog checks that the section index is at least 0 but not that it is below the section count | a course with no sections and the dialog at index 0: Add indexes past the end of the list | a lesson is added only to an existing section, as the quiz dialog checks | not executed | CourseEditor.AddLessonPastEndCrashes | CourseEditor.CheckedAgreesWhereNoCrash |
| CourseApp/app/src/main/java/com/example/courseapp/ui/screens/CourseDetailScreen.kt:50 | `isDownloaded` compares the shown course with the downloaded courses by structural equality; a course read back from the offline store has its image address and other fields changed | any course with a non-empty image address, after it is downloaded | the download button is disabled once the course, identified by its id, is downloaded | not executed; the decode is app/'s `loadDownloadedCourses` in app/src/main/java/com/example/courseapp/viewmodel/CourseViewModel.kt:1184-1217, since CourseApp's own view model is not part of this model | CourseDetail.DownloadButtonStaysEnabled | CourseDetail.DownloadDisablesButton |
| CourseApp/app/src/main/java/com/example/courseapp/ui/screens/HomeScreen.kt:224-236 | the search results list shows every course with its extras; `filteredCourses` is computed but never shown | the query "zzz" with one course titled "Kotlin": the course is still listed | the results are the courses that match the query and the selected category | not executed | Catalog.SearchListsNonMatching | Catalog.FilteredSearchAgrees |
| frontend/app/src/main/java/com/example/learnizone/ExpandableAdapter.java:66-69 | clicking a category flips its flag but never rebuilds the row list, which was built once in the constructor | a collapsed category that has domains, clicked once: no domain rows appear | a click rebuilds the rows, as the learnflow adapter does | not executed | DomainPicker.ExpandingShowsNoDomains | DomainPicker.RebuiltClickShowsDomains |
| frontend/app/src/main/java/com/example/learnizone/repositories/CourseRepository.java:160-171 | `addSectionToCourse` writes the new section's map by itself, not inside a list, as the whole "modules" field | a course with one section, then another section added: the first is lost | the new section is appended to the existing ones | not executed | Learnizone.AddSectionLosesSections | Learnizone.AppendKeepsNumbering |
| frontend/app/src/main/java/com/example/learnizone/repositories/CourseRepository.java:207-217 | `updateCourse` checks the instructor of the record passed in, never of the stored course it overwrites | a store where "alice" teaches course "c1", and "mallory" passes a record with id "c1" naming "mallory": the course is replaced | only the stored course's instructor may overwrite it, as `deleteCourse` checks | not executed; Firestore security rules, which are not part of this model, may refuse the write | Learnizone.NonInstructorOverwritesExample | Learnizone.OnlyInstructorChangesCourse |
| frontend/app/src/main/java/com/example/learnizone/models/Course.java:96-99 | `getDescription` returns a fixed placeholder text instead of the stored description | any course built with a description other than the placeholder | the getter returns the stored description | not executed | Learnizone.DescriptionNotReadBack | Learnizone.DescriptionReadBack |
