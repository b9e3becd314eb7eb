/**
 * Quiz exercises: creation and update with per-question validation, the student view that hides
 * the answers, and grading of a submission behind the retake and attempt-limit gate.
 */
module QuizExercise {
  import opened Wrappers
  import opened Numeric
  import opened BestAttempt
  import opened Records
  import opened Users

  datatype QuizOption = QuizOption(id: string, text: string, isCorrect: bool)

  datatype QuizQuestion = QuizQuestion(id: string, question: string, options: seq<QuizOption>, explanation: Option<string>, points: real)

  datatype Quiz = Quiz(
    id: string,
    courseId: string,
    title: string,
    description: Option<string>,
    order: int,
    questions: seq<QuizQuestion>,
    timeLimit: Option<int>,
    passingScore: real,
    allowRetake: bool,
    maxAttempts: Option<int>,
    shuffleQuestions: bool,
    shuffleOptions: bool)

  datatype QuizError =
    | CourseIdRequired
    | CourseNotFound
    | NoQuestions
    | TooFewOptions
    | NoCorrectOption
    | InvalidQuizId
    | InvalidStudentId
    | QuizNotFound
    | RetakeNotAllowed
    | MaxAttemptsReached

  // ---------------------------------------------------------------- question validation

  predicate HasCorrect(options: seq<QuizOption>)
  {
    exists i :: 0 <= i < |options| && options[i].isCorrect
  }

  /** What is wrong with one question, if anything: fewer than two options, or no correct one. */
  function QuestionError(q: QuizQuestion): Option<QuizError>
  {
    if |q.options| < 2 then Some(TooFewOptions)
    else if !HasCorrect(q.options) then Some(NoCorrectOption)
    else None
  }

  /** The error of the first question that has one. */
  function QuestionsError(qs: seq<QuizQuestion>): Option<QuizError>
  {
    if qs == [] then None
    else if QuestionError(qs[0]).Some? then QuestionError(qs[0])
    else QuestionsError(qs[1..])
  }

  /** The questions pass exactly when each does, and a failure is that of the first bad question. */
  lemma {:induction false} QuestionsErrorFacts(qs: seq<QuizQuestion>)
    ensures QuestionsError(qs).None? <==> forall j :: 0 <= j < |qs| ==> QuestionError(qs[j]).None?
    ensures QuestionsError(qs).Some? ==>
      exists k :: 0 <= k < |qs| && QuestionError(qs[k]) == QuestionsError(qs) &&
        forall j :: 0 <= j < k ==> QuestionError(qs[j]).None?
  {
    if qs != [] {
      QuestionsErrorFacts(qs[1..]);
      assert forall j :: 0 < j < |qs| ==> qs[j] == qs[1..][j - 1];
      if QuestionError(qs[0]).None? && QuestionsError(qs[1..]).Some? {
        var k :| 0 <= k < |qs[1..]| && QuestionError(qs[1..][k]) == QuestionsError(qs[1..]) &&
          forall j :: 0 <= j < k ==> QuestionError(qs[1..][j]).None?;
        assert QuestionError(qs[k + 1]) == QuestionsError(qs);
      }
    }
  }

  /** The validation loop: it stops at the first bad question. */
  method ValidateQuestions(qs: seq<QuizQuestion>) returns (r: Option<QuizError>)
    ensures r == QuestionsError(qs)
  {
    for i := 0 to |qs|
      invariant QuestionsError(qs) == QuestionsError(qs[i..])
    {
      assert qs[i..][0] == qs[i] && qs[i..][1..] == qs[i + 1..];
      if |qs[i].options| < 2 {
        return Some(TooFewOptions);
      }
      var correct := false;
      for j := 0 to |qs[i].options|
        invariant correct <==> exists t :: 0 <= t < j && qs[i].options[t].isCorrect
      {
        correct := correct || qs[i].options[j].isCorrect;
      }
      if !correct {
        return Some(NoCorrectOption);
      }
    }
    return None;
  }

  // ---------------------------------------------------------------- creation and update

  /** The fields of a new quiz as submitted; absent ones take the schema defaults. */
  datatype QuizDraft = QuizDraft(
    courseId: Option<string>,
    title: string,
    description: Option<string>,
    order: int,
    questions: Option<seq<QuizQuestion>>,
    timeLimit: Option<int>,
    passingScore: Option<real>,
    allowRetake: Option<bool>,
    maxAttempts: Option<int>,
    shuffleQuestions: Option<bool>,
    shuffleOptions: Option<bool>)

  /** `createQuiz`'s checks in order: a course id, an existing course, a question, valid questions. */
  function CreateQuizError(courses: map<string, Course>, draft: QuizDraft): Option<QuizError>
  {
    if !Filled(draft.courseId) then Some(CourseIdRequired)
    else if draft.courseId.value !in courses then Some(CourseNotFound)
    else if draft.questions.GetOr([]) == [] then Some(NoQuestions)
    else QuestionsError(draft.questions.value)
  }

  /** The document saved: passing score 60, retakes allowed and no shuffling unless given. */
  function NewQuiz(draft: QuizDraft, newId: string): Quiz
    requires draft.courseId.Some?
  {
    Quiz(newId, draft.courseId.value, draft.title, draft.description, draft.order, draft.questions.GetOr([]),
         draft.timeLimit, draft.passingScore.GetOr(60.0), draft.allowRetake.GetOr(true), draft.maxAttempts,
         draft.shuffleQuestions.GetOr(false), draft.shuffleOptions.GetOr(false))
  }

  function CreateResult(courses: map<string, Course>, draft: QuizDraft, newId: string): Result<Quiz, QuizError>
  {
    match CreateQuizError(courses, draft)
    case Some(e) => Err(e)
    case None => Ok(NewQuiz(draft, newId))
  }

  /**
   * A created quiz belongs to an existing course, has at least one question, and every question
   * has at least two options of which one is correct; the defaults apply to what was not given.
   */
  lemma CreateQuizFacts(courses: map<string, Course>, draft: QuizDraft, newId: string)
    ensures var r := CreateResult(courses, draft, newId);
      (!Filled(draft.courseId) ==> r == Err(CourseIdRequired)) &&
      (Filled(draft.courseId) && draft.courseId.value !in courses ==> r == Err(CourseNotFound)) &&
      (Filled(draft.courseId) && draft.courseId.value in courses && draft.questions.GetOr([]) == [] ==> r == Err(NoQuestions))
    ensures var r := CreateResult(courses, draft, newId);
      r.Ok? ==>
        r.value.courseId in courses && |r.value.questions| > 0 &&
        (forall j :: 0 <= j < |r.value.questions| ==>
          |r.value.questions[j].options| >= 2 && HasCorrect(r.value.questions[j].options)) &&
        r.value.passingScore == draft.passingScore.GetOr(60.0) && r.value.allowRetake == draft.allowRetake.GetOr(true)
  {
    if CreateResult(courses, draft, newId).Ok? {
      QuestionsErrorFacts(draft.questions.value);
    }
  }

  /** The fields an update may carry. */
  datatype QuizUpdate = QuizUpdate(
    courseId: Option<string>,
    title: Option<string>,
    description: Option<string>,
    order: Option<int>,
    questions: Option<seq<QuizQuestion>>,
    timeLimit: Option<int>,
    passingScore: Option<real>,
    allowRetake: Option<bool>,
    maxAttempts: Option<int>,
    shuffleQuestions: Option<bool>,
    shuffleOptions: Option<bool>)

  /** `updateQuiz`'s checks: a well-formed id, an existing course when one is named, valid questions when given. */
  function UpdateQuizError(courses: map<string, Course>, id: string, u: QuizUpdate): Option<QuizError>
  {
    if !IsObjectId(id) then Some(InvalidQuizId)
    else if Filled(u.courseId) && u.courseId.value !in courses then Some(CourseNotFound)
    else if u.questions.Some? then QuestionsError(u.questions.value)
    else None
  }

  /** The supplied fields replace the stored ones; an empty course id is dropped. */
  function Patched(q: Quiz, u: QuizUpdate): Quiz
  {
    q.(courseId := if Filled(u.courseId) then u.courseId.value else q.courseId,
       title := u.title.GetOr(q.title),
       description := if u.description.Some? then u.description else q.description,
       order := u.order.GetOr(q.order),
       questions := u.questions.GetOr(q.questions),
       timeLimit := if u.timeLimit.Some? then u.timeLimit else q.timeLimit,
       passingScore := u.passingScore.GetOr(q.passingScore),
       allowRetake := u.allowRetake.GetOr(q.allowRetake),
       maxAttempts := if u.maxAttempts.Some? then u.maxAttempts else q.maxAttempts,
       shuffleQuestions := u.shuffleQuestions.GetOr(q.shuffleQuestions),
       shuffleOptions := u.shuffleOptions.GetOr(q.shuffleOptions))
  }

  /**
   * An accepted update keeps the quiz's id, moves it only to an existing course (an empty course
   * id leaves the course as it was), and leaves every question it supplies with at least two
   * options, one of them correct; an empty question list is accepted, unlike at creation. An
   * update that supplies nothing changes nothing, and applying an update twice is applying it once.
   */
  lemma UpdateQuizFacts(courses: map<string, Course>, id: string, u: QuizUpdate, q: Quiz)
    ensures UpdateQuizError(courses, id, u).None? ==>
      IsObjectId(id) && Patched(q, u).id == q.id &&
      (Patched(q, u).courseId == q.courseId || Patched(q, u).courseId in courses) &&
      (u.questions.Some? ==> forall j :: 0 <= j < |u.questions.value| ==>
        |u.questions.value[j].options| >= 2 && HasCorrect(u.questions.value[j].options))
    ensures u.courseId == Some([]) ==> Patched(q, u).courseId == q.courseId
    ensures IsObjectId(id) && !Filled(u.courseId) && u.questions == Some([]) ==> UpdateQuizError(courses, id, u).None?
    ensures u == QuizUpdate(None, None, None, None, None, None, None, None, None, None, None) ==> Patched(q, u) == q
    ensures Patched(Patched(q, u), u) == Patched(q, u)
  {
    if UpdateQuizError(courses, id, u).None? && u.questions.Some? {
      QuestionsErrorFacts(u.questions.value);
    }
  }

  // ---------------------------------------------------------------- the student view

  datatype StudentOption = StudentOption(id: string, text: string)

  datatype StudentQuestion = StudentQuestion(id: string, question: string, options: seq<StudentOption>, points: real)

  /** What a student sees of a quiz: no correct flags and no explanations. */
  datatype StudentQuiz = StudentQuiz(
    id: string,
    courseId: string,
    title: string,
    description: Option<string>,
    order: int,
    questions: seq<StudentQuestion>,
    timeLimit: Option<int>,
    passingScore: real,
    allowRetake: bool,
    maxAttempts: Option<int>,
    shuffleQuestions: bool,
    shuffleOptions: bool)

  function SanitiseQuestion(q: QuizQuestion): StudentQuestion
  {
    StudentQuestion(q.id, q.question, seq(|q.options|, j requires 0 <= j < |q.options| => StudentOption(q.options[j].id, q.options[j].text)), q.points)
  }

  function Sanitise(quiz: Quiz): StudentQuiz
  {
    var qs := quiz.questions;
    StudentQuiz(quiz.id, quiz.courseId, quiz.title, quiz.description, quiz.order,
                seq(|qs|, k requires 0 <= k < |qs| => SanitiseQuestion(qs[k])),
                quiz.timeLimit, quiz.passingScore, quiz.allowRetake, quiz.maxAttempts, quiz.shuffleQuestions, quiz.shuffleOptions)
  }

  /** Two questions that differ only in which options are correct and in their explanations. */
  predicate SameButAnswers(a: QuizQuestion, b: QuizQuestion)
  {
    a.id == b.id && a.question == b.question && a.points == b.points && |a.options| == |b.options| &&
    forall j :: 0 <= j < |a.options| ==> a.options[j].id == b.options[j].id && a.options[j].text == b.options[j].text
  }

  /**
   * The view keeps every question's id, text and points and every option's id and text, in
   * order, and reveals nothing else: quizzes that differ only in the answers look the same.
   */
  lemma SanitiseFacts(quiz: Quiz, other: Quiz)
    ensures var v := Sanitise(quiz);
      |v.questions| == |quiz.questions| &&
      forall k :: 0 <= k < |quiz.questions| ==>
        v.questions[k].id == quiz.questions[k].id && v.questions[k].question == quiz.questions[k].question &&
        v.questions[k].points == quiz.questions[k].points && |v.questions[k].options| == |quiz.questions[k].options| &&
        forall j :: 0 <= j < |quiz.questions[k].options| ==>
          v.questions[k].options[j] == StudentOption(quiz.questions[k].options[j].id, quiz.questions[k].options[j].text)
    ensures (other == quiz.(questions := other.questions) && |other.questions| == |quiz.questions| &&
      forall k :: 0 <= k < |quiz.questions| ==> SameButAnswers(quiz.questions[k], other.questions[k])) ==>
      Sanitise(other) == Sanitise(quiz)
  {
    if other == quiz.(questions := other.questions) && |other.questions| == |quiz.questions| &&
       (forall k :: 0 <= k < |quiz.questions| ==> SameButAnswers(quiz.questions[k], other.questions[k])) {
      forall k | 0 <= k < |quiz.questions|
        ensures SanitiseQuestion(other.questions[k]) == SanitiseQuestion(quiz.questions[k])
      {
        assert SameButAnswers(quiz.questions[k], other.questions[k]);
      }
    }
  }

  // ---------------------------------------------------------------- grading

  datatype Answer = Answer(questionId: string, selectedOptionId: string)

  datatype GradedAnswer = GradedAnswer(questionId: string, selectedOptionId: string, isCorrect: bool, pointsEarned: real)

  /** `answers.find(a => a.questionId === id)`. */
  function FindAnswer(answers: seq<Answer>, questionId: string): (r: Option<Answer>)
    ensures r.None? <==> forall i :: 0 <= i < |answers| ==> answers[i].questionId != questionId
    ensures r.Some? ==> r.value in answers && r.value.questionId == questionId
  {
    if answers == [] then None
    else if answers[0].questionId == questionId then Some(answers[0])
    else FindAnswer(answers[1..], questionId)
  }

  /** `options.find(o => o.id === id)`. */
  function FindOption(options: seq<QuizOption>, optionId: string): (r: Option<QuizOption>)
    ensures r.None? <==> forall i :: 0 <= i < |options| ==> options[i].id != optionId
    ensures r.Some? ==> r.value in options && r.value.id == optionId
  {
    if options == [] then None
    else if options[0].id == optionId then Some(options[0])
    else FindOption(options[1..], optionId)
  }

  /** One question graded against the first answer to it; unanswered questions yield nothing. */
  function GradeQuestion(q: QuizQuestion, answers: seq<Answer>): Option<GradedAnswer>
  {
    match FindAnswer(answers, q.id)
    case None => None
    case Some(a) =>
      var o := FindOption(q.options, a.selectedOptionId);
      var correct := o.Some? && o.value.isCorrect;
      Some(GradedAnswer(q.id, a.selectedOptionId, correct, if correct then q.points else 0.0))
  }

  /** The graded answers, in question order. */
  function Graded(qs: seq<QuizQuestion>, answers: seq<Answer>): seq<GradedAnswer>
  {
    if qs == [] then []
    else
      var g := GradeQuestion(qs[|qs| - 1], answers);
      Graded(qs[..|qs| - 1], answers) + (if g.Some? then [g.value] else [])
  }

  function TotalPoints(qs: seq<QuizQuestion>): real
  {
    if qs == [] then 0.0 else TotalPoints(qs[..|qs| - 1]) + qs[|qs| - 1].points
  }

  function SumEarned(g: seq<GradedAnswer>): real
  {
    if g == [] then 0.0 else SumEarned(g[..|g| - 1]) + g[|g| - 1].pointsEarned
  }

  /** The score: the points of the correctly answered questions. */
  function Score(qs: seq<QuizQuestion>, answers: seq<Answer>): real
  {
    SumEarned(Graded(qs, answers))
  }

  lemma SumEarnedSnoc(g: seq<GradedAnswer>, x: GradedAnswer)
    ensures SumEarned(g + [x]) == SumEarned(g) + x.pointsEarned
  {
    assert (g + [x])[..|g|] == g;
  }

  /** A graded answer earns the question's points when correct and 0 otherwise; no answer, no entry. */
  lemma GradeQuestionFacts(q: QuizQuestion, answers: seq<Answer>)
    ensures GradeQuestion(q, answers).None? <==> forall i :: 0 <= i < |answers| ==> answers[i].questionId != q.id
    ensures var g := GradeQuestion(q, answers);
      g.Some? ==>
        g.value.questionId == q.id && g.value.selectedOptionId == FindAnswer(answers, q.id).value.selectedOptionId &&
        (g.value.isCorrect <==> exists j :: 0 <= j < |q.options| && q.options[j].id == g.value.selectedOptionId &&
                                 FindOption(q.options, g.value.selectedOptionId) == Some(q.options[j]) && q.options[j].isCorrect) &&
        g.value.pointsEarned == (if g.value.isCorrect then q.points else 0.0)
  {
    var g := GradeQuestion(q, answers);
    if g.Some? {
      var o := FindOption(q.options, g.value.selectedOptionId);
      if o.Some? {
        var j :| 0 <= j < |q.options| && q.options[j] == o.value;
      }
    }
  }

  /** With non-negative points the score lies between 0 and the total points. */
  lemma {:induction false} ScoreBetween(qs: seq<QuizQuestion>, answers: seq<Answer>)
    requires forall k :: 0 <= k < |qs| ==> qs[k].points >= 0.0
    ensures 0.0 <= Score(qs, answers) <= TotalPoints(qs)
  {
    if qs != [] {
      var p, q := qs[..|qs| - 1], qs[|qs| - 1];
      assert forall k :: 0 <= k < |p| ==> p[k] == qs[k];
      ScoreBetween(p, answers);
      assert TotalPoints(qs) == TotalPoints(p) + q.points;
      var g := GradeQuestion(q, answers);
      assert Graded(qs, answers) == Graded(p, answers) + (if g.Some? then [g.value] else []);
      if g.Some? {
        EarnedBetween(q, answers);
        SumEarnedSnoc(Graded(p, answers), g.value);
      } else {
        assert Graded(qs, answers) == Graded(p, answers);
        assert Score(qs, answers) == Score(p, answers);
      }
    }
  }

  /** A graded question earns between 0 and its points, when those are non-negative. */
  lemma EarnedBetween(q: QuizQuestion, answers: seq<Answer>)
    requires q.points >= 0.0
    requires GradeQuestion(q, answers).Some?
    ensures 0.0 <= GradeQuestion(q, answers).value.pointsEarned <= q.points
  {
  }

  /** An answer to an already-answered question is not seen by the search. */
  lemma FindAnswerAppend(answers: seq<Answer>, a: Answer, questionId: string)
    requires a.questionId != questionId || FindAnswer(answers, questionId).Some?
    ensures FindAnswer(answers + [a], questionId) == FindAnswer(answers, questionId)
  {
    if answers != [] {
      assert (answers + [a])[1..] == answers[1..] + [a];
      if answers[0].questionId != questionId {
        FindAnswerAppend(answers[1..], a, questionId);
      }
    }
  }

  /**
   * An answer naming no question of the quiz, or a question answered before, changes nothing:
   * unknown ids are ignored and only the first answer per question counts.
   */
  lemma {:induction false} ExtraAnswerIgnored(qs: seq<QuizQuestion>, answers: seq<Answer>, a: Answer)
    requires FindAnswer(answers, a.questionId).Some? || forall k :: 0 <= k < |qs| ==> qs[k].id != a.questionId
    ensures Graded(qs, answers + [a]) == Graded(qs, answers)
  {
    if qs != [] {
      var p := qs[..|qs| - 1];
      assert forall k :: 0 <= k < |p| ==> p[k] == qs[k];
      ExtraAnswerIgnored(p, answers, a);
      FindAnswerAppend(answers, a, qs[|qs| - 1].id);
    }
  }

  /** `existingAttempts`: the student's earlier attempts at the quiz. */
  function AttemptCount(subs: seq<Submission>, quizId: string, studentId: string): nat
  {
    if subs == [] then 0
    else AttemptCount(subs[..|subs| - 1], quizId, studentId) + (if Matches(subs[|subs| - 1], studentId, quizId) then 1 else 0)
  }

  /** The attempt gate: no retake once attempted when retakes are off, and no more than a set maximum. */
  function Gate(quiz: Quiz, existing: nat): Option<QuizError>
  {
    if !quiz.allowRetake && existing > 0 then Some(RetakeNotAllowed)
    else if quiz.maxAttempts.Some? && quiz.maxAttempts.value != 0 && existing >= quiz.maxAttempts.value then Some(MaxAttemptsReached)
    else None
  }

  /** An attempt is let through exactly when retakes allow it and the maximum is not reached; it is then within the maximum. */
  lemma GateFacts(quiz: Quiz, existing: nat)
    ensures Gate(quiz, existing).None? <==>
      (quiz.allowRetake || existing == 0) &&
      (quiz.maxAttempts.None? || quiz.maxAttempts.value == 0 || existing < quiz.maxAttempts.value)
    ensures Gate(quiz, existing).None? && quiz.maxAttempts.Some? && quiz.maxAttempts.value > 0 ==>
      existing + 1 <= quiz.maxAttempts.value
    ensures Gate(quiz, existing).None? && !quiz.allowRetake ==> existing + 1 == 1
  {
  }

  /** The stored submission. */
  datatype QuizAttempt = QuizAttempt(
    quizId: string,
    studentId: string,
    answers: seq<GradedAnswer>,
    score: real,
    totalPoints: real,
    percentage: real,
    passed: bool,
    attemptNumber: nat,
    submittedAt: int)

  /** The attempt as the grading engine reads it. */
  function AsSubmission(a: QuizAttempt): Submission
  {
    Submission(a.quizId, a.studentId, a.percentage, a.passed, Some(a.submittedAt))
  }

  function Attempts(subs: seq<QuizAttempt>): seq<Submission>
  {
    seq(|subs|, k requires 0 <= k < |subs| => AsSubmission(subs[k]))
  }

  /** `submitQuiz`, with `now` the submission instant. */
  function Submit(quizzes: map<string, Quiz>, subs: seq<QuizAttempt>, quizId: string, studentId: string,
                  answers: seq<Answer>, now: int): Result<QuizAttempt, QuizError>
  {
    if !IsObjectId(quizId) then Err(InvalidQuizId)
    else if !IsObjectId(studentId) then Err(InvalidStudentId)
    else if quizId !in quizzes then Err(QuizNotFound)
    else
      var quiz := quizzes[quizId];
      var existing := AttemptCount(Attempts(subs), quizId, studentId);
      match Gate(quiz, existing)
      case Some(e) => Err(e)
      case None =>
        var score := Score(quiz.questions, answers);
        var total := TotalPoints(quiz.questions);
        var percentage := Percent(score, total);
        Ok(QuizAttempt(quizId, studentId, Graded(quiz.questions, answers), score, total, percentage,
                       percentage >= quiz.passingScore, existing + 1, now))
  }

  /**
   * A recorded attempt passes exactly when its percentage reaches the passing score, its
   * percentage is the score's share of the total points (0 when the quiz is worth nothing) and
   * lies in [0, 100] for non-negative points, and it is numbered one past the earlier attempts.
   */
  lemma SubmitFacts(quizzes: map<string, Quiz>, subs: seq<QuizAttempt>, quizId: string, studentId: string,
                    answers: seq<Answer>, now: int)
    ensures var r := Submit(quizzes, subs, quizId, studentId, answers, now);
      r.Ok? ==>
        var quiz := quizzes[quizId];
        IsObjectId(quizId) && IsObjectId(studentId) && quizId in quizzes &&
        Gate(quiz, AttemptCount(Attempts(subs), quizId, studentId)).None? &&
        r.value.attemptNumber == AttemptCount(Attempts(subs), quizId, studentId) + 1 &&
        r.value.totalPoints == TotalPoints(quiz.questions) && r.value.score == Score(quiz.questions, answers) &&
        (r.value.totalPoints <= 0.0 ==> r.value.percentage == 0.0) &&
        (r.value.totalPoints > 0.0 ==> r.value.percentage * r.value.totalPoints == r.value.score * 100.0) &&
        (r.value.passed <==> r.value.percentage >= quiz.passingScore) &&
        ((forall k :: 0 <= k < |quiz.questions| ==> quiz.questions[k].points >= 0.0) ==>
          0.0 <= r.value.score <= r.value.totalPoints && 0.0 <= r.value.percentage <= 100.0)
    ensures var r := Submit(quizzes, subs, quizId, studentId, answers, now);
      IsObjectId(quizId) && IsObjectId(studentId) && quizId in quizzes ==>
        (r.Err? <==> Gate(quizzes[quizId], AttemptCount(Attempts(subs), quizId, studentId)).Some?)
  {
    var r := Submit(quizzes, subs, quizId, studentId, answers, now);
    if r.Ok? {
      var quiz := quizzes[quizId];
      if forall k :: 0 <= k < |quiz.questions| ==> quiz.questions[k].points >= 0.0 {
        ScoreBetween(quiz.questions, answers);
      }
    }
  }

  lemma AttemptNumbering(subs: seq<QuizAttempt>, a: QuizAttempt, quizId: string, studentId: string)
    ensures AttemptCount(Attempts(subs + [a]), quizId, studentId) ==
      AttemptCount(Attempts(subs), quizId, studentId) + (if a.quizId == quizId && a.studentId == studentId then 1 else 0)
  {
    assert Attempts(subs + [a])[..|subs|] == Attempts(subs);
  }

  lemma GradedStep(qs: seq<QuizQuestion>, answers: seq<Answer>, i: nat)
    requires i < |qs|
    ensures Graded(qs[..i + 1], answers) == Graded(qs[..i], answers) +
      (if GradeQuestion(qs[i], answers).Some? then [GradeQuestion(qs[i], answers).value] else [])
    ensures TotalPoints(qs[..i + 1]) == TotalPoints(qs[..i]) + qs[i].points
  {
    assert qs[..i + 1][..i] == qs[..i];
  }

  /** The grading loop: every question's points count towards the total, answered ones are graded. */
  method GradeAll(qs: seq<QuizQuestion>, answers: seq<Answer>) returns (graded: seq<GradedAnswer>, totalScore: real, totalPoints: real)
    ensures graded == Graded(qs, answers) && totalScore == Score(qs, answers) && totalPoints == TotalPoints(qs)
  {
    graded, totalScore, totalPoints := [], 0.0, 0.0;
    for i := 0 to |qs|
      invariant graded == Graded(qs[..i], answers)
      invariant totalScore == SumEarned(graded)
      invariant totalPoints == TotalPoints(qs[..i])
    {
      GradedStep(qs, answers, i);
      totalPoints := totalPoints + qs[i].points;
      var a := FindAnswer(answers, qs[i].id);
      if a.Some? {
        var o := FindOption(qs[i].options, a.value.selectedOptionId);
        var correct := o.Some? && o.value.isCorrect;
        var earned := if correct then qs[i].points else 0.0;
        var g := GradedAnswer(qs[i].id, a.value.selectedOptionId, correct, earned);
        SumEarnedSnoc(graded, g);
        totalScore := totalScore + earned;
        graded := graded + [g];
      }
    }
    assert qs[..|qs|] == qs;
  }

  /** The quizzes and their submissions. */
  class QuizStore {
    var quizzes: map<string, Quiz>
    var submissions: seq<QuizAttempt>

    constructor(quizzes: map<string, Quiz>, submissions: seq<QuizAttempt>)
      ensures this.quizzes == quizzes && this.submissions == submissions
    {
      this.quizzes := quizzes;
      this.submissions := submissions;
    }

    method CreateQuiz(courses: map<string, Course>, draft: QuizDraft, newId: string) returns (r: Result<Quiz, QuizError>)
      requires newId !in quizzes
      modifies this
      ensures r == CreateResult(courses, draft, newId)
      ensures r.Ok? ==> quizzes == old(quizzes)[newId := r.value]
      ensures r.Err? ==> quizzes == old(quizzes)
      ensures submissions == old(submissions)
    {
      if draft.courseId.None? || draft.courseId.value == [] {
        return Err(CourseIdRequired);
      }
      if draft.courseId.value !in courses {
        return Err(CourseNotFound);
      }
      var questions := draft.questions.GetOr([]);
      if questions == [] {
        return Err(NoQuestions);
      }
      var bad := ValidateQuestions(questions);
      if bad.Some? {
        return Err(bad.value);
      }
      var quiz := NewQuiz(draft, newId);
      quizzes := quizzes[newId := quiz];
      r := Ok(quiz);
    }

    /** `updateQuiz`: None when no quiz has the id. */
    method UpdateQuiz(courses: map<string, Course>, id: string, u: QuizUpdate) returns (r: Result<Option<Quiz>, QuizError>)
      modifies this
      ensures UpdateQuizError(courses, id, u).Some? ==> r == Err(UpdateQuizError(courses, id, u).value) && quizzes == old(quizzes)
      ensures UpdateQuizError(courses, id, u).None? && id !in old(quizzes) ==> r == Ok(None) && quizzes == old(quizzes)
      ensures UpdateQuizError(courses, id, u).None? && id in old(quizzes) ==>
        r == Ok(Some(Patched(old(quizzes)[id], u))) && quizzes == old(quizzes)[id := Patched(old(quizzes)[id], u)]
      ensures submissions == old(submissions)
    {
      if !IsObjectId(id) {
        return Err(InvalidQuizId);
      }
      if u.courseId.Some? && u.courseId.value != [] && u.courseId.value !in courses {
        return Err(CourseNotFound);
      }
      if u.questions.Some? {
        var bad := ValidateQuestions(u.questions.value);
        if bad.Some? {
          return Err(bad.value);
        }
      }
      if id !in quizzes {
        return Ok(None);
      }
      var updated := Patched(quizzes[id], u);
      quizzes := quizzes[id := updated];
      r := Ok(Some(updated));
    }

    /** `getQuizForStudent`: None when no quiz has the id. */
    method GetQuizForStudent(id: string) returns (r: Result<Option<StudentQuiz>, QuizError>)
      ensures !IsObjectId(id) ==> r == Err(InvalidQuizId)
      ensures IsObjectId(id) && id !in quizzes ==> r == Ok(None)
      ensures IsObjectId(id) && id in quizzes ==> r == Ok(Some(Sanitise(quizzes[id])))
    {
      if !IsObjectId(id) {
        return Err(InvalidQuizId);
      }
      if id !in quizzes {
        return Ok(None);
      }
      r := Ok(Some(Sanitise(quizzes[id])));
    }

    method SubmitQuiz(quizId: string, studentId: string, answers: seq<Answer>, now: int) returns (r: Result<QuizAttempt, QuizError>)
      modifies this
      ensures r == Submit(quizzes, old(submissions), quizId, studentId, answers, now)
      ensures r.Ok? ==> submissions == old(submissions) + [r.value]
      ensures r.Err? ==> submissions == old(submissions)
      ensures quizzes == old(quizzes)
    {
      if !IsObjectId(quizId) {
        return Err(InvalidQuizId);
      }
      if !IsObjectId(studentId) {
        return Err(InvalidStudentId);
      }
      if quizId !in quizzes {
        return Err(QuizNotFound);
      }
      var quiz := quizzes[quizId];
      var existing := AttemptCount(Attempts(submissions), quizId, studentId);
      if !quiz.allowRetake && existing > 0 {
        return Err(RetakeNotAllowed);
      }
      if quiz.maxAttempts.Some? && quiz.maxAttempts.value != 0 && existing >= quiz.maxAttempts.value {
        return Err(MaxAttemptsReached);
      }
      var graded, totalScore, totalPoints := GradeAll(quiz.questions, answers);
      var percentage := if totalPoints > 0.0 then totalScore / totalPoints * 100.0 else 0.0;
      var attempt := QuizAttempt(quizId, studentId, graded, totalScore, totalPoints, percentage,
                                 percentage >= quiz.passingScore, existing + 1, now);
      submissions := submissions + [attempt];
      r := Ok(attempt);
    }
  }
}
