/**
 * Practice (coding) exercises: creation checks, the student view without hidden tests,
 * grading a submission against the test cases with the code runner as an oracle, and the
 * choice of a student's best submission.
 */
module PracticeExercise {
  import opened Wrappers
  import opened Numeric
  import opened Text
  import opened Records
  import opened Users

  datatype TestCase = TestCase(id: string, input: string, expectedOutput: string, isHidden: bool,
                               explanation: Option<string>, points: real)

  datatype Practice = Practice(
    id: string,
    courseId: string,
    title: string,
    description: string,
    order: int,
    difficulty: string,
    language: string,
    templateCode: string,
    testCases: seq<TestCase>,
    constraints: Option<string>,
    hints: seq<string>,
    sampleInput: Option<string>,
    sampleOutput: Option<string>,
    timeLimit: int,
    memoryLimit: int)

  datatype PracticeError =
    | CourseIdRequired
    | TitleRequired
    | DescriptionRequired
    | CourseNotFound
    | NoTestCases
    | InvalidPracticeId
    | InvalidStudentId
    | PracticeNotFound

  // ---------------------------------------------------------------- creation

  /** The fields of a new practice as submitted; absent ones take the schema defaults. */
  datatype PracticeDraft = PracticeDraft(
    courseId: Option<string>,
    title: Option<string>,
    description: Option<string>,
    order: int,
    difficulty: Option<string>,
    language: Option<string>,
    templateCode: Option<string>,
    testCases: Option<seq<TestCase>>,
    constraints: Option<string>,
    hints: Option<seq<string>>,
    sampleInput: Option<string>,
    sampleOutput: Option<string>,
    timeLimit: Option<int>,
    memoryLimit: Option<int>)

  /** `createPractice`'s checks in order. */
  function CreatePracticeError(courses: map<string, Course>, d: PracticeDraft): Option<PracticeError>
  {
    if !Filled(d.courseId) then Some(CourseIdRequired)
    else if !Filled(d.title) then Some(TitleRequired)
    else if !Filled(d.description) then Some(DescriptionRequired)
    else if d.courseId.value !in courses then Some(CourseNotFound)
    else if d.testCases.GetOr([]) == [] then Some(NoTestCases)
    else None
  }

  /** The document saved: easy, Python, an empty template, no hints, 10 s and 256000 KB unless given. */
  function NewPractice(d: PracticeDraft, newId: string): Practice
    requires d.courseId.Some? && d.title.Some? && d.description.Some?
  {
    Practice(newId, d.courseId.value, d.title.value, d.description.value, d.order, d.difficulty.GetOr("easy"),
             d.language.GetOr("python"), d.templateCode.GetOr(""), d.testCases.GetOr([]), d.constraints,
             d.hints.GetOr([]), d.sampleInput, d.sampleOutput, d.timeLimit.GetOr(10000), d.memoryLimit.GetOr(256000))
  }

  function CreateResult(courses: map<string, Course>, d: PracticeDraft, newId: string): Result<Practice, PracticeError>
  {
    match CreatePracticeError(courses, d)
    case Some(e) => Err(e)
    case None => Ok(NewPractice(d, newId))
  }

  /**
   * The checks come in order (course id, title, description, known course, a test case), and a
   * created practice has non-empty title and description, an existing course and a test case.
   */
  lemma CreatePracticeFacts(courses: map<string, Course>, d: PracticeDraft, newId: string)
    ensures var r := CreateResult(courses, d, newId);
      (!Filled(d.courseId) ==> r == Err(CourseIdRequired)) &&
      (Filled(d.courseId) && !Filled(d.title) ==> r == Err(TitleRequired)) &&
      (Filled(d.courseId) && Filled(d.title) && !Filled(d.description) ==> r == Err(DescriptionRequired)) &&
      (Filled(d.courseId) && Filled(d.title) && Filled(d.description) && d.courseId.value !in courses ==>
        r == Err(CourseNotFound)) &&
      ((Filled(d.courseId) && Filled(d.title) && Filled(d.description) && d.courseId.value in courses &&
        d.testCases.GetOr([]) == []) ==> r == Err(NoTestCases))
    ensures var r := CreateResult(courses, d, newId);
      r.Ok? <==> (Filled(d.courseId) && Filled(d.title) && Filled(d.description) && d.courseId.value in courses &&
        d.testCases.GetOr([]) != [])
    ensures var r := CreateResult(courses, d, newId);
      r.Ok? ==> (r.value.courseId in courses && r.value.title != [] && r.value.description != [] &&
        |r.value.testCases| > 0 && r.value.testCases == d.testCases.value && r.value.id == newId)
  {
  }

  // ---------------------------------------------------------------- the student view

  /** The test cases that are not hidden, in order. */
  function Visible(tests: seq<TestCase>): seq<TestCase>
  {
    if tests == [] then []
    else Visible(tests[..|tests| - 1]) + (if tests[|tests| - 1].isHidden then [] else [tests[|tests| - 1]])
  }

  lemma {:induction false} VisibleAppend(a: seq<TestCase>, b: seq<TestCase>)
    ensures Visible(a + b) == Visible(a) + Visible(b)
    decreases |b|
  {
    if b == [] {
      assert a + b == a;
    } else {
      var b' := b[..|b| - 1];
      assert (a + b)[..|a + b| - 1] == a + b';
      VisibleAppend(a, b');
    }
  }

  /** Every test in the view is a visible test of the practice. */
  lemma {:induction false} VisibleOnlyShown(tests: seq<TestCase>)
    ensures |Visible(tests)| <= |tests|
    ensures forall k :: 0 <= k < |Visible(tests)| ==> !Visible(tests)[k].isHidden && Visible(tests)[k] in tests
  {
    if tests != [] {
      var n := |tests| - 1;
      var p := tests[..n];
      VisibleOnlyShown(p);
      var v := Visible(p);
      var last := if tests[n].isHidden then [] else [tests[n]];
      assert Visible(tests) == v + last;
      forall k | 0 <= k < |Visible(tests)|
        ensures !Visible(tests)[k].isHidden && Visible(tests)[k] in tests
      {
        if k < |v| {
          assert Visible(tests)[k] == v[k];
          assert v[k] in p;
          var j :| 0 <= j < |p| && p[j] == v[k];
          assert tests[j] == p[j];
        } else {
          assert Visible(tests)[k] == tests[n];
        }
      }
    }
  }

  /** Every visible test of the practice is in the view. */
  lemma {:induction false} VisibleKeepsShown(tests: seq<TestCase>)
    ensures forall k :: 0 <= k < |tests| && !tests[k].isHidden ==> tests[k] in Visible(tests)
  {
    if tests != [] {
      var n := |tests| - 1;
      var p := tests[..n];
      VisibleKeepsShown(p);
      var v := Visible(p);
      var last := if tests[n].isHidden then [] else [tests[n]];
      assert Visible(tests) == v + last;
      forall k | 0 <= k < |tests| && !tests[k].isHidden
        ensures tests[k] in Visible(tests)
      {
        if k < n {
          assert tests[k] == p[k];
          var j :| 0 <= j < |v| && v[j] == p[k];
          assert Visible(tests)[j] == v[j];
        } else {
          assert Visible(tests)[|v|] == tests[n];
        }
      }
    }
  }

  /** A practice without hidden tests is shown whole. */
  lemma {:induction false} VisibleAllShown(tests: seq<TestCase>)
    requires forall k :: 0 <= k < |tests| ==> !tests[k].isHidden
    ensures Visible(tests) == tests
  {
    if tests != [] {
      var n := |tests| - 1;
      var p := tests[..n];
      assert forall k :: 0 <= k < n ==> p[k] == tests[k];
      VisibleAllShown(p);
      assert tests == p + [tests[n]];
      VisibleShownLast(tests, p, tests[n]);
    }
  }

  lemma VisibleShownLast(tests: seq<TestCase>, p: seq<TestCase>, x: TestCase)
    requires tests == p + [x] && !x.isHidden && Visible(p) == p
    ensures Visible(tests) == tests
  {
    assert tests[..|tests| - 1] == p;
  }

  /** `getPracticeForStudent`'s view: the practice with only its visible test cases. */
  function ForStudent(p: Practice): Practice
  {
    p.(testCases := Visible(p.testCases))
  }

  // ---------------------------------------------------------------- grading

  /** What the code runner reports for one run: the output and, possibly, an error message. */
  datatype ExecResult = ExecResult(output: string, error: Option<string>)

  datatype TestResult = TestResult(testCaseId: string, passed: bool, input: string, expectedOutput: string,
                                   actualOutput: string, error: Option<string>, pointsEarned: real, isHidden: bool)

  const Hidden: string := "[Hidden]"

  /** A run passes when it reported no error and its trimmed output is the trimmed expected one. */
  predicate Passes(t: TestCase, e: ExecResult)
  {
    !Filled(e.error) && Trim(e.output) == Trim(t.expectedOutput)
  }

  /** The result recorded for one test case, with hidden inputs and outputs masked. */
  function ResultOf(t: TestCase, e: ExecResult): TestResult
  {
    var passed := Passes(t, e);
    TestResult(t.id, passed,
               if t.isHidden then Hidden else t.input,
               if t.isHidden then Hidden else Trim(t.expectedOutput),
               if t.isHidden && !passed then Hidden else Trim(e.output),
               if Filled(e.error) then e.error else None,
               if passed then t.points else 0.0,
               t.isHidden)
  }

  /**
   * A test passes exactly when its run has no error and matching trimmed output; it earns its
   * points then and 0 otherwise; a hidden test shows neither input nor expected output, and
   * shows its actual output only when it passed.
   */
  lemma ResultOfFacts(t: TestCase, e: ExecResult)
    ensures var r := ResultOf(t, e);
      r.testCaseId == t.id && r.isHidden == t.isHidden &&
      (r.passed <==> !Filled(e.error) && Trim(e.output) == Trim(t.expectedOutput)) &&
      r.pointsEarned == (if r.passed then t.points else 0.0) &&
      (r.error.Some? <==> Filled(e.error)) &&
      (t.isHidden ==> r.input == Hidden && r.expectedOutput == Hidden) &&
      (!t.isHidden ==> r.input == t.input && r.expectedOutput == Trim(t.expectedOutput)) &&
      (t.isHidden && !r.passed ==> r.actualOutput == Hidden) &&
      (!t.isHidden || r.passed ==> r.actualOutput == Trim(e.output))
  {
  }

  /** The runs of the submitted code, one per test case, each on that test's input. */
  function Runs(tests: seq<TestCase>, exec: string -> ExecResult): seq<ExecResult>
  {
    seq(|tests|, k requires 0 <= k < |tests| => exec(tests[k].input))
  }

  /** One result per test case and its run. */
  function Results(tests: seq<TestCase>, runs: seq<ExecResult>): seq<TestResult>
    requires |runs| == |tests|
  {
    seq(|tests|, k requires 0 <= k < |tests| => ResultOf(tests[k], runs[k]))
  }

  function PassedCount(rs: seq<TestResult>): nat
  {
    if rs == [] then 0 else PassedCount(rs[..|rs| - 1]) + (if rs[|rs| - 1].passed then 1 else 0)
  }

  function Earned(rs: seq<TestResult>): real
  {
    if rs == [] then 0.0 else Earned(rs[..|rs| - 1]) + rs[|rs| - 1].pointsEarned
  }

  function TotalPoints(tests: seq<TestCase>): real
  {
    if tests == [] then 0.0 else TotalPoints(tests[..|tests| - 1]) + tests[|tests| - 1].points
  }

  /** There is one result per test case, in order, each that of the test's own run. */
  lemma ResultsAt(tests: seq<TestCase>, runs: seq<ExecResult>)
    requires |runs| == |tests|
    ensures |Results(tests, runs)| == |tests|
    ensures forall k :: 0 <= k < |tests| ==> Results(tests, runs)[k] == ResultOf(tests[k], runs[k])
  {
  }

  lemma ResultsStep(tests: seq<TestCase>, runs: seq<ExecResult>, i: nat)
    requires |runs| == |tests| && i < |tests|
    ensures Results(tests[..i + 1], runs[..i + 1]) == Results(tests[..i], runs[..i]) + [ResultOf(tests[i], runs[i])]
    ensures TotalPoints(tests[..i + 1]) == TotalPoints(tests[..i]) + tests[i].points
  {
    assert tests[..i + 1][..i] == tests[..i];
    var a, b := Results(tests[..i + 1], runs[..i + 1]), Results(tests[..i], runs[..i]);
    forall k | 0 <= k < i
      ensures a[k] == b[k]
    {
      assert tests[..i + 1][k] == tests[..i][k] && runs[..i + 1][k] == runs[..i][k];
    }
    assert a[i] == ResultOf(tests[i], runs[i]);
  }

  lemma SumsSnoc(rs: seq<TestResult>, r: TestResult)
    ensures PassedCount(rs + [r]) == PassedCount(rs) + (if r.passed then 1 else 0)
    ensures Earned(rs + [r]) == Earned(rs) + r.pointsEarned
  {
    assert (rs + [r])[..|rs|] == rs;
  }

  /** The passes are at most the results, and they are all of them exactly when each result passed. */
  lemma {:induction false} PassedCountFacts(rs: seq<TestResult>)
    ensures PassedCount(rs) <= |rs|
    ensures PassedCount(rs) == |rs| <==> forall k :: 0 <= k < |rs| ==> rs[k].passed
  {
    if rs != [] {
      var n := |rs| - 1;
      PassedCountFacts(rs[..n]);
      assert forall k :: 0 <= k < n ==> rs[..n][k] == rs[k];
    }
  }

  /** Results earning between 0 and their test's points earn between 0 and the total; all points earned give the total. */
  lemma {:induction false} EarnedBetween(rs: seq<TestResult>, tests: seq<TestCase>)
    requires |rs| == |tests|
    requires forall k :: 0 <= k < |rs| ==> 0.0 <= rs[k].pointsEarned <= tests[k].points
    ensures 0.0 <= Earned(rs) <= TotalPoints(tests)
    ensures (forall k :: 0 <= k < |rs| ==> rs[k].pointsEarned == tests[k].points) ==> Earned(rs) == TotalPoints(tests)
  {
    if rs != [] {
      var n := |rs| - 1;
      assert forall k :: 0 <= k < n ==> rs[..n][k] == rs[k] && tests[..n][k] == tests[k];
      EarnedBetween(rs[..n], tests[..n]);
    }
  }

  /** Each result of the runs passes, and earns, as its own test and run decide. */
  lemma ResultsFacts(tests: seq<TestCase>, runs: seq<ExecResult>)
    requires |runs| == |tests|
    ensures |Results(tests, runs)| == |tests|
    ensures forall k :: 0 <= k < |tests| ==>
      (Results(tests, runs)[k].passed <==> Passes(tests[k], runs[k])) &&
      Results(tests, runs)[k].pointsEarned == (if Passes(tests[k], runs[k]) then tests[k].points else 0.0)
  {
    ResultsAt(tests, runs);
  }

  /**
   * Over the results of the runs: one per test, at most one pass per test, and all tests pass
   * exactly when the passes number the tests.
   */
  lemma GradePasses(tests: seq<TestCase>, runs: seq<ExecResult>)
    requires |runs| == |tests|
    ensures var rs := Results(tests, runs);
      |rs| == |tests| && PassedCount(rs) <= |tests| &&
      (PassedCount(rs) == |tests| <==> forall k :: 0 <= k < |tests| ==> Passes(tests[k], runs[k]))
  {
    ResultsFacts(tests, runs);
    PassedCountFacts(Results(tests, runs));
  }

  /** With non-negative points the score lies between 0 and the total, and reaches it when every test passes. */
  lemma GradeScore(tests: seq<TestCase>, runs: seq<ExecResult>)
    requires |runs| == |tests|
    requires forall k :: 0 <= k < |tests| ==> tests[k].points >= 0.0
    ensures 0.0 <= Earned(Results(tests, runs)) <= TotalPoints(tests)
    ensures (forall k :: 0 <= k < |tests| ==> Passes(tests[k], runs[k])) ==> Earned(Results(tests, runs)) == TotalPoints(tests)
  {
    ResultsFacts(tests, runs);
    EarnedBetween(Results(tests, runs), tests);
  }

  /** The stored submission. */
  datatype PracticeAttempt = PracticeAttempt(
    practiceId: string,
    studentId: string,
    code: string,
    language: string,
    testResults: seq<TestResult>,
    passedTests: nat,
    totalTests: nat,
    score: real,
    totalPoints: real,
    percentage: real,
    passed: bool,
    submittedAt: int)

  /** The submission recorded for given runs of the code over the practice's tests. */
  function Graded(practiceId: string, studentId: string, code: string, language: string, tests: seq<TestCase>,
                  runs: seq<ExecResult>, now: int): PracticeAttempt
    requires |runs| == |tests|
  {
    var rs := Results(tests, runs);
    var score := Earned(rs);
    var total := TotalPoints(tests);
    PracticeAttempt(practiceId, studentId, code, language, rs, PassedCount(rs), |tests|, score, total,
                    Percent(score, total), PassedCount(rs) == |tests|, now)
  }

  /**
   * A submission has one result per test, and passes exactly when every test passes (so a
   * practice with no tests is passed).
   */
  lemma GradedPasses(practiceId: string, studentId: string, code: string, language: string, tests: seq<TestCase>,
                     runs: seq<ExecResult>, now: int)
    requires |runs| == |tests|
    ensures var a := Graded(practiceId, studentId, code, language, tests, runs, now);
      |a.testResults| == |tests| == a.totalTests && a.passedTests <= a.totalTests &&
      (a.passed <==> forall k :: 0 <= k < |tests| ==> Passes(tests[k], runs[k])) &&
      (tests == [] ==> a.passed)
  {
    GradePasses(tests, runs);
  }

  /**
   * A submission's percentage is the score's share of the total points (see `PercentShare`),
   * 0 when the tests are worth nothing, and lies in [0, 100] for non-negative points, reaching
   * 100 when every test passes and the tests are worth something.
   */
  lemma GradedPercentage(practiceId: string, studentId: string, code: string, language: string, tests: seq<TestCase>,
                         runs: seq<ExecResult>, now: int)
    requires |runs| == |tests|
    ensures var a := Graded(practiceId, studentId, code, language, tests, runs, now);
      (a.totalPoints <= 0.0 ==> a.percentage == 0.0) &&
      a.percentage == Percent(a.score, a.totalPoints) &&
      ((forall k :: 0 <= k < |tests| ==> tests[k].points >= 0.0) ==>
        0.0 <= a.score <= a.totalPoints && 0.0 <= a.percentage <= 100.0) &&
      ((forall k :: 0 <= k < |tests| ==> tests[k].points >= 0.0) && a.passed && a.totalPoints > 0.0 ==>
        a.percentage == 100.0)
  {
    var a := Graded(practiceId, studentId, code, language, tests, runs, now);
    assert a.score == Earned(Results(tests, runs)) && a.totalPoints == TotalPoints(tests) &&
      a.percentage == Percent(a.score, a.totalPoints);
    PercentShare(a.score, a.totalPoints);
    if forall k :: 0 <= k < |tests| ==> tests[k].points >= 0.0 {
      GradePasses(tests, runs);
      GradeScore(tests, runs);
    }
  }

  /** `submitPractice`, with `exec` the runner for this code and language and `now` the instant. */
  function Submit(practices: map<string, Practice>, practiceId: string, studentId: string, code: string,
                  language: string, exec: string -> ExecResult, now: int): (r: Result<PracticeAttempt, PracticeError>)
    ensures r.Err? <==> !IsObjectId(practiceId) || !IsObjectId(studentId) || practiceId !in practices
  {
    if !IsObjectId(practiceId) then Err(InvalidPracticeId)
    else if !IsObjectId(studentId) then Err(InvalidStudentId)
    else if practiceId !in practices then Err(PracticeNotFound)
    else
      var tests := practices[practiceId].testCases;
      Ok(Graded(practiceId, studentId, code, language, tests, Runs(tests, exec), now))
  }

  /** The grading loop over the test cases, running the code once per test. */
  method RunTests(tests: seq<TestCase>, exec: string -> ExecResult) returns (rs: seq<TestResult>, passedTests: nat, totalScore: real, totalPoints: real)
    ensures rs == Results(tests, Runs(tests, exec)) && passedTests == PassedCount(rs) && totalScore == Earned(rs) &&
      totalPoints == TotalPoints(tests)
  {
    ghost var runs := Runs(tests, exec);
    rs, passedTests, totalScore, totalPoints := [], 0, 0.0, 0.0;
    for i := 0 to |tests|
      invariant rs == Results(tests[..i], runs[..i])
      invariant passedTests == PassedCount(rs) && totalScore == Earned(rs)
      invariant totalPoints == TotalPoints(tests[..i])
    {
      ResultsStep(tests, runs, i);
      var t := tests[i];
      totalPoints := totalPoints + t.points;
      var e := exec(t.input);
      assert e == runs[i];
      var expected := Trim(t.expectedOutput);
      var actual := Trim(e.output);
      var passed := !Filled(e.error) && actual == expected;
      if passed {
        passedTests := passedTests + 1;
        totalScore := totalScore + t.points;
      }
      var r := TestResult(t.id, passed,
                          if t.isHidden then Hidden else t.input,
                          if t.isHidden then Hidden else expected,
                          if t.isHidden && !passed then Hidden else actual,
                          if Filled(e.error) then e.error else None,
                          if passed then t.points else 0.0,
                          t.isHidden);
      assert r == ResultOf(t, runs[i]);
      SumsSnoc(rs, r);
      rs := rs + [r];
    }
    assert tests[..|tests|] == tests && runs[..|tests|] == runs;
  }

  // ---------------------------------------------------------------- the best submission

  /** Sorting by percentage, then by submission time, both descending: does `a` come before `b`? */
  predicate Outranks(a: PracticeAttempt, b: PracticeAttempt)
  {
    a.percentage > b.percentage || (a.percentage == b.percentage && a.submittedAt > b.submittedAt)
  }

  predicate IsAttemptOf(a: PracticeAttempt, practiceId: string, studentId: string)
  {
    a.practiceId == practiceId && a.studentId == studentId
  }

  /**
   * `getStudentBestSubmission`: the student's submission with the highest percentage, the latest
   * among equal percentages; none when the student has not submitted.
   */
  function BestIndex(subs: seq<PracticeAttempt>, practiceId: string, studentId: string): (r: Option<nat>)
    ensures r.None? <==> forall j :: 0 <= j < |subs| ==> !IsAttemptOf(subs[j], practiceId, studentId)
    ensures r.Some? ==> (r.value < |subs| && IsAttemptOf(subs[r.value], practiceId, studentId) &&
      forall j :: 0 <= j < |subs| && IsAttemptOf(subs[j], practiceId, studentId) ==> !Outranks(subs[j], subs[r.value]))
  {
    if subs == [] then None
    else
      var n := |subs| - 1;
      var b := BestIndex(subs[..n], practiceId, studentId);
      assert forall j :: 0 <= j < n ==> subs[..n][j] == subs[j];
      if !IsAttemptOf(subs[n], practiceId, studentId) then b
      else if b.None? || Outranks(subs[n], subs[b.value]) then Some(n)
      else b
  }

  /** The practices and their submissions. */
  class PracticeStore {
    var practices: map<string, Practice>
    var submissions: seq<PracticeAttempt>

    constructor(practices: map<string, Practice>, submissions: seq<PracticeAttempt>)
      ensures this.practices == practices && this.submissions == submissions
    {
      this.practices := practices;
      this.submissions := submissions;
    }

    method CreatePractice(courses: map<string, Course>, d: PracticeDraft, newId: string) returns (r: Result<Practice, PracticeError>)
      requires newId !in practices
      modifies this
      ensures r == CreateResult(courses, d, newId)
      ensures r.Ok? ==> practices == old(practices)[newId := r.value]
      ensures r.Err? ==> practices == old(practices)
      ensures submissions == old(submissions)
    {
      if !Filled(d.courseId) {
        return Err(CourseIdRequired);
      }
      if !Filled(d.title) {
        return Err(TitleRequired);
      }
      if !Filled(d.description) {
        return Err(DescriptionRequired);
      }
      if d.courseId.value !in courses {
        return Err(CourseNotFound);
      }
      if d.testCases.GetOr([]) == [] {
        return Err(NoTestCases);
      }
      var p := NewPractice(d, newId);
      practices := practices[newId := p];
      r := Ok(p);
    }

    /** `getPracticeForStudent`: None when no practice has the id. */
    method GetPracticeForStudent(id: string) returns (r: Result<Option<Practice>, PracticeError>)
      ensures !IsObjectId(id) ==> r == Err(InvalidPracticeId)
      ensures IsObjectId(id) && id !in practices ==> r == Ok(None)
      ensures IsObjectId(id) && id in practices ==> r == Ok(Some(ForStudent(practices[id])))
    {
      if !IsObjectId(id) {
        return Err(InvalidPracticeId);
      }
      if id !in practices {
        return Ok(None);
      }
      r := Ok(Some(ForStudent(practices[id])));
    }

    method SubmitPractice(practiceId: string, studentId: string, code: string, language: string,
                          exec: string -> ExecResult, now: int) returns (r: Result<PracticeAttempt, PracticeError>)
      modifies this
      ensures r == Submit(practices, practiceId, studentId, code, language, exec, now)
      ensures r.Ok? ==> submissions == old(submissions) + [r.value]
      ensures r.Err? ==> submissions == old(submissions)
      ensures practices == old(practices)
    {
      if !IsObjectId(practiceId) {
        return Err(InvalidPracticeId);
      }
      if !IsObjectId(studentId) {
        return Err(InvalidStudentId);
      }
      if practiceId !in practices {
        return Err(PracticeNotFound);
      }
      var tests := practices[practiceId].testCases;
      var rs, passedTests, totalScore, totalPoints := RunTests(tests, exec);
      var percentage := Percent(totalScore, totalPoints);
      var attempt := PracticeAttempt(practiceId, studentId, code, language, rs, passedTests, |tests|,
                                     totalScore, totalPoints, percentage, passedTests == |tests|, now);
      submissions := submissions + [attempt];
      r := Ok(attempt);
    }

    method GetStudentBestSubmission(practiceId: string, studentId: string) returns (r: Option<PracticeAttempt>)
      ensures r.None? <==> forall j :: 0 <= j < |submissions| ==> !IsAttemptOf(submissions[j], practiceId, studentId)
      ensures r.Some? ==> (r.value in submissions && IsAttemptOf(r.value, practiceId, studentId) &&
        forall j :: 0 <= j < |submissions| && IsAttemptOf(submissions[j], practiceId, studentId) ==> !Outranks(submissions[j], r.value))
    {
      var b := BestIndex(submissions, practiceId, studentId);
      r := if b.Some? then Some(submissions[b.value]) else None;
    }
  }
}
