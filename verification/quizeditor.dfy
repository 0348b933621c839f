/**
 * The quiz editor screen: the add-question dialog (its form, the type
 * selector, the options text and the points field) and the description
 * field with its Save button.
 */
module QuizEditor {
  import opened Wrappers
  import opened Seqs
  import opened Text
  import opened CourseModel
  import CourseEdits

  /** The add-question dialog's fields as they stand when Add is pressed. */
  datatype QuestionForm = QuestionForm(text: string, kind: QuestionType, options: string,
                                       correctAnswer: string, points: string)

  /** The dialog as it opens: empty fields, multiple choice, and "1" in the points field. */
  function NewQuestionForm(): (r: QuestionForm)
    ensures r.kind == MultipleChoice && r.text == "" && r.options == "" && r.correctAnswer == ""
    ensures ParseInt(r.points) == Some(1)
  {
    ParseIntToString(1);
    QuestionForm("", MultipleChoice, "", "", IntToString(1))
  }

  /** What the type selector can receive: a request to open its menu, or a click on a menu item. */
  datatype SelectorEvent = ExpandRequest | PickType(t: QuestionType)

  /**
   * The selector's menu is declared with `expanded = false` and an empty
   * `onExpandedChange`: an open request is ignored and no menu item is ever
   * shown, so no item can be clicked.
   */
  function OnSelectorEvent(f: QuestionForm, e: SelectorEvent): QuestionForm
  {
    match e
    case ExpandRequest => f
    case PickType(_) => f
  }

  function OnSelectorEvents(f: QuestionForm, events: seq<SelectorEvent>): QuestionForm
    decreases |events|
  {
    if |events| == 0 then f else OnSelectorEvents(OnSelectorEvent(f, events[0]), events[1..])
  }

  /** Whatever the user does with the selector, a fresh dialog stays on multiple choice. */
  lemma {:induction false} TypeStaysMultipleChoice(f: QuestionForm, events: seq<SelectorEvent>)
    requires f.kind == MultipleChoice
    ensures OnSelectorEvents(f, events).kind == MultipleChoice
    decreases |events|
  {
    if |events| > 0 {
      TypeStaysMultipleChoice(OnSelectorEvent(f, events[0]), events[1..]);
    }
  }

  /**
   * The options of a new question: for multiple choice the text split at
   * line breaks with the blank lines dropped, in order; no options for any
   * other kind.
   */
  function ParseOptions(kind: QuestionType, text: string): (r: seq<string>)
    ensures kind != MultipleChoice ==> r == []
    ensures kind == MultipleChoice ==>
              (forall o :: o in r <==> o in Split(text, '\n') && !IsBlank(o)) &&
              IsSubsequence(r, Split(text, '\n'))
    ensures forall i :: 0 <= i < |r| ==> !IsBlank(r[i]) && '\n' !in r[i]
  {
    if kind == MultipleChoice then Filter(Split(text, '\n'), (o: string) => !IsBlank(o)) else []
  }

  /** Options written one per line, none blank, are read back exactly, in order. */
  lemma OptionsRoundTrip(options: seq<string>)
    requires forall i :: 0 <= i < |options| ==> !IsBlank(options[i]) && '\n' !in options[i]
    ensures ParseOptions(MultipleChoice, Join(options, '\n')) == options
  {
    var p := (o: string) => !IsBlank(o);
    if |options| == 0 {
      assert Split("", '\n') == [""];
      assert IsBlank("");
    } else {
      SplitJoin(options, '\n');
      FilterAll(options, p);
    }
  }

  /** The question the dialog builds: the points field parsed as an `Int`, 1 when it does not parse. */
  function FormQuestion(f: QuestionForm, questionId: string): (q: Question)
    ensures q.id == questionId && q.text == f.text && q.kind == f.kind && q.correctAnswer == f.correctAnswer
    ensures q.options == ParseOptions(f.kind, f.options)
    ensures ParseInt(f.points).None? ==> q.points == 1
    ensures ParseInt(f.points).Some? ==> q.points == ParseInt(f.points).value
  {
    Question(questionId, f.text, f.kind, ParseOptions(f.kind, f.options), f.correctAnswer, ParseIntOr(f.points, 1))
  }

  /** Whether the dialog is still shown after Add, and the selected course afterwards. */
  datatype Outcome = Outcome(dialogOpen: bool, course: Option<Course>)

  /**
   * Add: with a non-blank question text and a non-blank correct answer the
   * question goes into the targeted quiz of the selected course (none
   * selected: nothing is written) and the dialog closes; otherwise nothing
   * happens and the dialog stays.
   */
  function ConfirmAddQuestion(f: QuestionForm, course: Option<Course>, sectionId: string, quizId: string,
                              questionId: string): (r: Outcome)
    ensures r.dialogOpen <==> IsBlank(f.text) || IsBlank(f.correctAnswer)
    ensures r.dialogOpen || course.None? ==> r.course == course
    ensures !r.dialogOpen && course.Some? ==>
              r.course == Some(CourseEdits.AddQuestion(course.value, sectionId, quizId, FormQuestion(f, questionId)))
  {
    if !IsBlank(f.text) && !IsBlank(f.correctAnswer) then
      match course
      case None => Outcome(false, None)
      case Some(c) => Outcome(false, Some(CourseEdits.AddQuestion(c, sectionId, quizId, FormQuestion(f, questionId))))
    else Outcome(true, course)
  }

  /**
   * Every question the dialog adds is well formed: its text and answer are
   * not blank, none of its options is blank, and it is the last question of
   * each targeted quiz.
   */
  lemma AddedQuestionWellFormed(f: QuestionForm, c: Course, sectionId: string, quizId: string, questionId: string,
                                i: int, k: int)
    requires !ConfirmAddQuestion(f, Some(c), sectionId, quizId, questionId).dialogOpen
    requires 0 <= i < |c.sections| && c.sections[i].id == sectionId
    requires 0 <= k < |c.sections[i].quizzes| && c.sections[i].quizzes[k].id == quizId
    ensures var qs := ConfirmAddQuestion(f, Some(c), sectionId, quizId, questionId).course.value.sections[i].quizzes[k].questions;
            |qs| == |c.sections[i].quizzes[k].questions| + 1 &&
            var q := qs[|qs| - 1];
            q.id == questionId && !IsBlank(q.text) && !IsBlank(q.correctAnswer) &&
            forall j :: 0 <= j < |q.options| ==> !IsBlank(q.options[j])
  {
  }

  /** Removing the added question again, when its id was new to the quiz, restores the course. */
  lemma DeleteUndoesConfirmedAdd(f: QuestionForm, c: Course, sectionId: string, quizId: string, questionId: string)
    requires forall i, k :: (0 <= i < |c.sections| && c.sections[i].id == sectionId &&
                             0 <= k < |c.sections[i].quizzes| && c.sections[i].quizzes[k].id == quizId) ==>
               forall j :: 0 <= j < |c.sections[i].quizzes[k].questions| ==>
                 c.sections[i].quizzes[k].questions[j].id != questionId
    ensures var r := ConfirmAddQuestion(f, Some(c), sectionId, quizId, questionId).course.value;
            CourseEdits.DeleteQuestion(r, sectionId, quizId, questionId) == c
  {
    if !IsBlank(f.text) && !IsBlank(f.correctAnswer) {
      CourseEdits.DeleteQuestionAfterAdd(c, sectionId, quizId, FormQuestion(f, questionId));
    } else {
      var p := (x: Question) => x.id != questionId;
      forall i | 0 <= i < |c.sections| && c.sections[i].id == sectionId
        ensures forall k :: 0 <= k < |c.sections[i].quizzes| && c.sections[i].quizzes[k].id == quizId ==>
                  Filter(c.sections[i].quizzes[k].questions, p) == c.sections[i].quizzes[k].questions
      {
        forall k | 0 <= k < |c.sections[i].quizzes| && c.sections[i].quizzes[k].id == quizId {
          FilterAll(c.sections[i].quizzes[k].questions, p);
        }
      }
      var r := CourseEdits.DeleteQuestion(c, sectionId, quizId, questionId);
      forall i | 0 <= i < |c.sections| ensures r.sections[i] == c.sections[i] {
        if c.sections[i].id == sectionId {
          assert r.sections[i].quizzes == c.sections[i].quizzes;
        }
      }
    }
  }

  /** The description field's starting text: it is not loaded from the quiz. */
  const InitialDescription: string := ""

  /** Save: the field's text becomes the description of the targeted quiz of the selected course, verbatim. */
  function SaveDescription(course: Option<Course>, sectionId: string, quizId: string, text: string): (r: Option<Course>)
    ensures course.None? <==> r.None?
    ensures course.Some? ==>
              CourseEdits.OnlySectionChanged(course.value, r.value, sectionId) &&
              forall i :: 0 <= i < |course.value.sections| && course.value.sections[i].id == sectionId ==>
                var s, t := course.value.sections[i], r.value.sections[i];
                CourseEdits.OnlyQuizChanged(s, t, quizId) &&
                forall k :: 0 <= k < |s.quizzes| && s.quizzes[k].id == quizId ==> t.quizzes[k].description == text
  {
    match course
    case None => None
    case Some(c) => Some(CourseEdits.UpdateQuizDescription(c, sectionId, quizId, text))
  }

  /**
   * Pressing Save before typing anything erases the targeted quiz's
   * description, because the field starts empty rather than with the
   * stored text.
   */
  lemma SaveUntouchedErases(c: Course, sectionId: string, quizId: string, i: int, k: int)
    requires 0 <= i < |c.sections| && c.sections[i].id == sectionId
    requires 0 <= k < |c.sections[i].quizzes| && c.sections[i].quizzes[k].id == quizId
    ensures SaveDescription(Some(c), sectionId, quizId, InitialDescription).value.sections[i].quizzes[k].description == ""
  {
  }
}
