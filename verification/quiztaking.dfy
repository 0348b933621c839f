/**
 * The quiz-taking screen: the answer map, the minute countdown, and what
 * Submit computes — total and earned points, the integer score, the pass
 * verdict, the failed questions and whether recommended resources are
 * requested.
 */
module QuizTaking {
  import opened Wrappers
  import opened Seqs
  import opened CourseModel
  import Progress

  /** Euclidean division of a non-negative number brackets it between two multiples. */
  lemma DivBracket(a: int, b: int)
    requires a >= 0 && b > 0
    ensures 0 <= a / b && (a / b) * b <= a < (a / b + 1) * b
  {
    assert a == (a / b) * b + a % b;
    assert (a / b + 1) * b == (a / b) * b + b;
  }

  /**
   * Kotlin `Int` division by a positive divisor, which truncates toward zero
   * (Dafny's `/` is Euclidean): the quotient is the multiple of `b` nearest
   * to zero that does not pass `a`.
   */
  function TruncDiv(a: int, b: int): (r: int)
    requires b > 0
    ensures a >= 0 ==> 0 <= r && r * b <= a < (r + 1) * b
    ensures a < 0 ==> r <= 0 && (r - 1) * b < a <= r * b
  {
    if a >= 0 then
      DivBracket(a, b);
      a / b
    else
      var q := (0 - a) / b;
      DivBracket(0 - a, b);
      assert (0 - q) * b == 0 - q * b;
      assert (0 - q - 1) * b == 0 - (q + 1) * b;
      0 - q
  }

  /** Only one quotient satisfies the bracket, so the bracket pins down the truncated quotient. */
  lemma TruncDivUnique(a: int, b: int, q: int)
    requires b > 0
    requires a >= 0 ==> q * b <= a < (q + 1) * b
    requires a < 0 ==> (q - 1) * b < a <= q * b
    ensures q == TruncDiv(a, b)
  {
    var r := TruncDiv(a, b);
    if a >= 0 {
      if q + 1 < r { Progress.MulLess(q + 1, r, b); }
      if r + 1 < q { Progress.MulLess(r + 1, q, b); }
    } else {
      if q < r - 1 { Progress.MulLess(q, r - 1, b); }
      if r < q - 1 { Progress.MulLess(r, q - 1, b); }
    }
  }

  /** Truncation is symmetric about zero: negating the dividend negates the quotient. */
  lemma TruncDivOdd(a: int, b: int)
    requires b > 0
    ensures TruncDiv(0 - a, b) == 0 - TruncDiv(a, b)
  {
    var r := TruncDiv(a, b);
    assert (0 - r) * b == 0 - r * b;
    assert (0 - r + 1) * b == 0 - (r - 1) * b;
    assert (0 - r - 1) * b == 0 - (r + 1) * b;
    TruncDivUnique(0 - a, b, 0 - r);
  }

  /** The quiz the screen shows: the first quiz with the id in the first section with the id. */
  function CurrentQuiz(course: Option<Course>, sectionId: string, quizId: string): Option<Quiz>
  {
    match course
    case None => None
    case Some(c) =>
      match FindSection(c.sections, sectionId)
      case None => None
      case Some(s) => FindQuiz(s.quizzes, quizId)
  }

  /** The answer is right when the map holds exactly the correct text (case matters; no answer is wrong). */
  predicate Correct(answers: map<string, string>, q: Question)
  {
    q.id in answers && answers[q.id] == q.correctAnswer
  }

  function TotalPoints(questions: seq<Question>): int
  {
    SumOf(questions, (q: Question) => q.points)
  }

  function EarnedPoints(questions: seq<Question>, answers: map<string, string>): int
  {
    SumOf(questions, (q: Question) => if Correct(answers, q) then q.points else 0)
  }

  /** The percentage shown on the results page; 0 when the quiz is worth nothing. */
  function Score(questions: seq<Question>, answers: map<string, string>): int
  {
    var total := TotalPoints(questions);
    if total > 0 then TruncDiv(EarnedPoints(questions, answers) * 100, total) else 0
  }

  predicate NonNegativePoints(questions: seq<Question>)
  {
    forall k :: 0 <= k < |questions| ==> questions[k].points >= 0
  }

  /** With non-negative points, the earned points lie between 0 and the total. */
  lemma {:induction false} EarnedWithinTotal(questions: seq<Question>, answers: map<string, string>)
    requires NonNegativePoints(questions)
    ensures 0 <= EarnedPoints(questions, answers) <= TotalPoints(questions)
    decreases |questions|
  {
    if |questions| > 0 {
      EarnedWithinTotal(questions[1..], answers);
    }
  }

  /** Every question right earns every point. */
  lemma {:induction false} AllCorrectEarnsAll(questions: seq<Question>, answers: map<string, string>)
    requires forall k :: 0 <= k < |questions| ==> Correct(answers, questions[k])
    ensures EarnedPoints(questions, answers) == TotalPoints(questions)
    decreases |questions|
  {
    if |questions| > 0 {
      AllCorrectEarnsAll(questions[1..], answers);
    }
  }

  /** With non-negative points the score is a percentage, and all answers right give 100 on a quiz worth something. */
  lemma ScoreBounds(questions: seq<Question>, answers: map<string, string>)
    requires NonNegativePoints(questions)
    ensures 0 <= Score(questions, answers) <= 100
    ensures TotalPoints(questions) > 0 && (forall k :: 0 <= k < |questions| ==> Correct(answers, questions[k]))
            ==> Score(questions, answers) == 100
  {
    EarnedWithinTotal(questions, answers);
    var total, earned := TotalPoints(questions), EarnedPoints(questions, answers);
    if total > 0 {
      assert Score(questions, answers) == Progress.CalculateProgress(earned, total);
      Progress.ProgressBounds(earned, total);
      if forall k :: 0 <= k < |questions| ==> Correct(answers, questions[k]) {
        AllCorrectEarnsAll(questions, answers);
      }
    }
  }

  /** The questions answered wrongly or not at all, in quiz order. */
  function FailedQuestions(questions: seq<Question>, answers: map<string, string>): (r: seq<Question>)
    ensures forall q :: q in r <==> q in questions && !Correct(answers, q)
    ensures IsSubsequence(r, questions)
  {
    Filter(questions, (q: Question) => !Correct(answers, q))
  }

  /** The correctly answered questions, in quiz order. */
  function RightQuestions(questions: seq<Question>, answers: map<string, string>): seq<Question>
  {
    Filter(questions, (q: Question) => Correct(answers, q))
  }

  /** Failed and correctly answered questions split the quiz between them. */
  lemma {:induction false} FailedPartition(questions: seq<Question>, answers: map<string, string>)
    ensures |FailedQuestions(questions, answers)| + |RightQuestions(questions, answers)| == |questions|
    ensures multiset(FailedQuestions(questions, answers)) + multiset(RightQuestions(questions, answers)) == multiset(questions)
    decreases |questions|
  {
    if |questions| > 0 {
      FailedPartition(questions[1..], answers);
      HeadTail(questions);
    }
  }

  /** When every question is worth at least a point, no failed question means full marks, and back. */
  lemma {:induction false} NoFailuresIffFullMarks(questions: seq<Question>, answers: map<string, string>)
    requires forall k :: 0 <= k < |questions| ==> questions[k].points > 0
    ensures |FailedQuestions(questions, answers)| == 0 <==> EarnedPoints(questions, answers) == TotalPoints(questions)
    decreases |questions|
  {
    if |questions| > 0 {
      NoFailuresIffFullMarks(questions[1..], answers);
      EarnedWithinTotal(questions[1..], answers);
    }
  }

  /** The pass mark in force: the quiz's own, or 70 when the quiz is missing. */
  function PassingScore(quiz: Option<Quiz>): int
  {
    if quiz.Some? then quiz.value.passingScore else 70
  }

  /** What pressing Submit computes. */
  datatype Submission = Submission(score: int, hasPassed: bool, failed: seq<Question>, requestResources: bool)

  /**
   * Submit: the score over the quiz's questions (none when the quiz is
   * missing), the pass verdict against the pass mark, the failed
   * questions, and a resource request only for a failed attempt at an
   * existing quiz.
   */
  function Submit(quiz: Option<Quiz>, answers: map<string, string>): (r: Submission)
    ensures var qs := if quiz.Some? then quiz.value.questions else [];
            r.score == Score(qs, answers) && r.failed == FailedQuestions(qs, answers)
    ensures r.hasPassed <==> r.score >= PassingScore(quiz)
    ensures r.requestResources <==> quiz.Some? && !r.hasPassed
    ensures quiz.None? ==> r.score == 0 && !r.hasPassed && r.failed == []
  {
    var qs := if quiz.Some? then quiz.value.questions else [];
    var score := Score(qs, answers);
    var passed := score >= PassingScore(quiz);
    Submission(score, passed, FailedQuestions(qs, answers), quiz.Some? && !passed)
  }

  /** A passing submission never asks for recommended resources. */
  lemma PassNeverRequestsResources(quiz: Option<Quiz>, answers: map<string, string>)
    ensures Submit(quiz, answers).hasPassed ==> !Submit(quiz, answers).requestResources
  {
  }

  /** The Submit button: enabled when the map holds as many answers as the quiz has questions. */
  predicate SubmitEnabled(quiz: Option<Quiz>, answers: map<string, string>)
  {
    quiz.Some? && |answers| == |quiz.value.questions|
  }

  lemma AnsweredWithinIds(quiz: Quiz, answers: map<string, string>, ids: seq<string>)
    requires ids == Map(quiz.questions, (q: Question) => q.id)
    requires forall id :: id in answers ==> exists k :: 0 <= k < |quiz.questions| && quiz.questions[k].id == id
    ensures answers.Keys <= Elements(ids)
  {
    forall id | id in answers ensures id in Elements(ids) {
      var k :| 0 <= k < |quiz.questions| && quiz.questions[k].id == id;
      assert ids[k] == id;
    }
  }

  lemma IdsWithinAnswered(quiz: Quiz, answers: map<string, string>, ids: seq<string>)
    requires ids == Map(quiz.questions, (q: Question) => q.id)
    requires forall k :: 0 <= k < |quiz.questions| ==> quiz.questions[k].id in answers
    ensures Elements(ids) <= answers.Keys
  {
    forall x | x in Elements(ids) ensures x in answers.Keys {
      var k :| 0 <= k < |ids| && ids[k] == x;
    }
  }

  /**
   * With distinct question ids and answers recorded only through the
   * question cards, Submit is enabled exactly when every question has an
   * answer.
   */
  lemma SubmitEnabledIffAllAnswered(quiz: Quiz, answers: map<string, string>)
    requires NoDup(Map(quiz.questions, (q: Question) => q.id))
    requires forall id :: id in answers ==> exists k :: 0 <= k < |quiz.questions| && quiz.questions[k].id == id
    ensures SubmitEnabled(Some(quiz), answers) <==>
            forall k :: 0 <= k < |quiz.questions| ==> quiz.questions[k].id in answers
  {
    var ids := Map(quiz.questions, (q: Question) => q.id);
    ElementsCardinality(ids);
    AnsweredWithinIds(quiz, answers, ids);
    assert |answers| == |answers.Keys|;
    if forall k :: 0 <= k < |quiz.questions| ==> quiz.questions[k].id in answers {
      IdsWithinAnswered(quiz, answers, ids);
      assert answers.Keys == Elements(ids);
    } else {
      var k :| 0 <= k < |quiz.questions| && quiz.questions[k].id !in answers;
      assert ids[k] in Elements(ids) && ids[k] !in answers.Keys;
      StrictSubsetCardinality(answers.Keys, Elements(ids));
    }
  }

  /** A question card's change: that question's entry is replaced or added, every other entry is kept. */
  function RecordAnswer(answers: map<string, string>, questionId: string, answer: string): (r: map<string, string>)
    ensures questionId in r && r[questionId] == answer
    ensures r.Keys == answers.Keys + {questionId}
    ensures forall id :: id in answers && id != questionId ==> r[id] == answers[id]
  {
    answers[questionId := answer]
  }

  /** A minute tick of the countdown: down by one while positive, otherwise unchanged. */
  function Tick(remaining: int): (r: int)
    ensures remaining > 0 ==> r == remaining - 1
    ensures remaining <= 0 ==> r == remaining
  {
    if remaining > 0 then remaining - 1 else remaining
  }

  /** The countdown after `n` ticks. */
  function Ticks(remaining: int, n: nat): int
    decreases n
  {
    if n == 0 then remaining else Ticks(Tick(remaining), n - 1)
  }

  /** From a non-negative start the countdown after `n` minutes is `max(0, start - n)`: it stops at 0. */
  lemma {:induction false} TicksFloor(start: int, n: nat)
    requires start >= 0
    ensures Ticks(start, n) == if start >= n then start - n else 0
    decreases n
  {
    if n > 0 {
      TicksFloor(Tick(start), n - 1);
    }
  }

  /** The countdown starts at the quiz's limit (0 without a quiz). */
  function InitialTime(quiz: Option<Quiz>): int
  {
    if quiz.Some? then quiz.value.timeLimit else 0
  }
}
