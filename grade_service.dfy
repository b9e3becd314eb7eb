/**
 * A learner's grade sheet: for every approved enrolment, the course's quiz, practice and total
 * scores with a letter grade, folded into total credits, earned credits and a credit-weighted GPA.
 */
module GradeService {
  import opened Wrappers
  import opened Records
  import opened BestAttempt
  import opened ScoreAggregator
  import opened GradeTable

  datatype CourseGrade = CourseGrade(
    courseId: string,
    courseCode: string,
    courseName: string,
    credits: int,
    quizScore: Option<real>,
    practiceScore: Option<real>,
    total: Option<real>,
    grade: string)

  datatype GradeSummary = GradeSummary(
    userId: string,
    totalCredits: int,
    earnedCredits: int,
    gpa: real,
    courses: seq<CourseGrade>)

  datatype GradeError = InvalidUserId

  /** The learner's figures in one course. */
  function ScoresIn(st: Store, userId: string, c: Course): CourseScores
  {
    ScoresFor(IdsOf(st.quizzes, c.id), IdsOf(st.practices, c.id), st.quizSubmissions, st.practiceSubmissions, userId)
  }

  /** The grade-sheet entry of one course, with its display defaults. */
  function GradeOf(st: Store, userId: string, c: Course): CourseGrade
  {
    var s := ScoresIn(st, userId, c);
    CourseGrade(c.id, OrElse(c.code, "N/A"), OrElse(c.name, "Untitled Course"), CreditsOf(c),
                s.quizScore, s.practiceScore, s.total, LetterGrade(s.total))
  }

  /**
   * A course entry: its total is unknown exactly when the course has no quiz and no practice,
   * its grade is the total's letter ('-' when unknown), it always shows a code and a name, and
   * with stored percentages in range its scores lie on the 0–10 scale.
   */
  lemma GradeOfFacts(st: Store, userId: string, c: Course)
    ensures GradeOf(st, userId, c).total.None? <==> IdsOf(st.quizzes, c.id) == [] && IdsOf(st.practices, c.id) == []
    ensures GradeOf(st, userId, c).grade == LetterGrade(GradeOf(st, userId, c).total)
    ensures GradeOf(st, userId, c).courseCode != [] && GradeOf(st, userId, c).courseName != []
    ensures GradeOf(st, userId, c).credits == CreditsOf(c)
    ensures PercentagesInRange(st) ==>
      OptBetween(GradeOf(st, userId, c).quizScore, 0.0, 10.0) &&
      OptBetween(GradeOf(st, userId, c).practiceScore, 0.0, 10.0) &&
      OptBetween(GradeOf(st, userId, c).total, 0.0, 10.0)
  {
    ScoresForFacts(IdsOf(st.quizzes, c.id), IdsOf(st.practices, c.id), st.quizSubmissions, st.practiceSubmissions, userId);
  }

  /** The grade sheet's entries: one per visited enrolment, for its course, in enrolment order. */
  function Grades(st: Store, userId: string, rows: seq<Enrolment>): (r: seq<CourseGrade>)
    ensures |r| == |Visits(st, userId, rows)| <= |rows|
  {
    var vs := Visits(st, userId, rows);
    seq(|vs|, k requires 0 <= k < |vs| => GradeOf(st, userId, st.courses[vs[k].courseId]))
  }

  /** One more enrolment row adds its course's entry when the row is visited, and nothing otherwise. */
  lemma GradesStep(st: Store, userId: string, rows: seq<Enrolment>, i: nat)
    requires i < |rows|
    ensures Grades(st, userId, rows[..i + 1]) == Grades(st, userId, rows[..i]) +
      (if Visited(st, userId, rows[i]) then [GradeOf(st, userId, st.courses[rows[i].courseId])] else [])
  {
    VisitsStep(st, userId, rows, i);
  }

  /** Credits of every entry, whether or not its total is known. */
  function TotalCredits(gs: seq<CourseGrade>): int
  {
    if gs == [] then 0 else TotalCredits(gs[..|gs| - 1]) + gs[|gs| - 1].credits
  }

  predicate IsEarned(g: CourseGrade)
  {
    g.total.Some? && g.total.value >= 5.0
  }

  /** Credits of the entries whose total is at least 5.0. */
  function EarnedCredits(gs: seq<CourseGrade>): int
  {
    if gs == [] then 0
    else EarnedCredits(gs[..|gs| - 1]) + (if IsEarned(gs[|gs| - 1]) then gs[|gs| - 1].credits else 0)
  }

  /** An entry's share of the weighted sum: total × credits, or nothing without a total. */
  function WeightOf(g: CourseGrade): real
  {
    if g.total.Some? then g.total.value * g.credits as real else 0.0
  }

  /** Sum of total × credits over the entries with a known total. */
  function WeightedSum(gs: seq<CourseGrade>): real
  {
    if gs == [] then 0.0 else WeightedSum(gs[..|gs| - 1]) + WeightOf(gs[|gs| - 1])
  }

  /**
   * `round(scoreToGPA(weighted / totalCredits) * 100) / 100`, or 0 without credits. The rounding to
   * hundredths never moves a GPA step, so the result is the step itself.
   */
  function Gpa(weighted: real, totalCredits: int): (r: real)
    ensures totalCredits <= 0 ==> r == 0.0
    ensures totalCredits > 0 ==> r == ScoreToGpa(weighted / totalCredits as real)
    ensures IsGpaStep(r) && 0.0 <= r <= 4.0
  {
    if totalCredits > 0 then
      var step := ScoreToGpa(weighted / totalCredits as real);
      HundredthsExact(step);
      Numeric.Round(step * 100.0) as real / 100.0
    else 0.0
  }

  lemma HundredthsExact(step: real)
    requires IsGpaStep(step)
    ensures Numeric.Round(step * 100.0) as real / 100.0 == step
  {
    var n := (step * 100.0).Floor;
    assert n as real == step * 100.0;
    Numeric.RoundOfInt(n);
  }

  /** With non-negative credits, the earned credits never exceed the total credits. */
  lemma {:induction false} EarnedAtMostTotal(gs: seq<CourseGrade>)
    requires forall i :: 0 <= i < |gs| ==> gs[i].credits >= 0
    ensures 0 <= EarnedCredits(gs) <= TotalCredits(gs)
  {
    if gs != [] {
      EarnedAtMostTotal(gs[..|gs| - 1]);
    }
  }

  /**
   * With non-negative credits and totals on the 0–10 scale, the weighted sum lies between 0 and
   * 10 × total credits: the GPA is read from a credit-weighted mean in which unknown totals count 0.
   */
  lemma {:induction false} WeightedSumBetween(gs: seq<CourseGrade>)
    requires forall i :: 0 <= i < |gs| ==> gs[i].credits >= 0 && OptBetween(gs[i].total, 0.0, 10.0)
    ensures 0.0 <= WeightedSum(gs) <= 10.0 * TotalCredits(gs) as real
  {
    if gs != [] {
      var init := gs[..|gs| - 1];
      var g := gs[|gs| - 1];
      assert forall i :: 0 <= i < |init| ==> init[i] == gs[i];
      WeightedSumBetween(init);
      WeightOfBetween(g);
    }
  }

  lemma WeightOfBetween(g: CourseGrade)
    requires g.credits >= 0 && OptBetween(g.total, 0.0, 10.0)
    ensures 0.0 <= WeightOf(g) <= 10.0 * g.credits as real
  {
    if g.total.Some? {
      var t := g.total.value;
      assert WeightOf(g) == t * g.credits as real;
      ProductBetween(t, g.credits as real);
    }
  }

  /** Non-negative stored credits: every entry of the sheet has non-negative credits. */
  lemma GradesCreditsNonNegative(st: Store, userId: string, rows: seq<Enrolment>)
    requires forall id :: id in st.courses ==> st.courses[id].credits.None? || st.courses[id].credits.value >= 0
    ensures forall i :: 0 <= i < |Grades(st, userId, rows)| ==> Grades(st, userId, rows)[i].credits >= 0
  {
  }

  /** On a store with non-negative credits, a learner never earns more credits than they take. */
  lemma EarnedAtMostTotalInStore(st: Store, userId: string)
    requires forall id :: id in st.courses ==> st.courses[id].credits.None? || st.courses[id].credits.value >= 0
    ensures 0 <= EarnedCredits(Grades(st, userId, st.enrolments)) <= TotalCredits(Grades(st, userId, st.enrolments))
  {
    GradesCreditsNonNegative(st, userId, st.enrolments);
    EarnedAtMostTotal(Grades(st, userId, st.enrolments));
  }

  lemma ProductBetween(t: real, c: real)
    requires 0.0 <= t <= 10.0 && c >= 0.0
    ensures 0.0 <= t * c <= 10.0 * c
  {
    assert (10.0 - t) * c >= 0.0;
  }

  lemma SumsSnoc(gs: seq<CourseGrade>, g: CourseGrade)
    ensures WeightedSum(gs + [g]) == WeightedSum(gs) + WeightOf(g)
    ensures TotalCredits(gs + [g]) == TotalCredits(gs) + g.credits
    ensures EarnedCredits(gs + [g]) == EarnedCredits(gs) + (if IsEarned(g) then g.credits else 0)
  {
    assert (gs + [g])[..|gs|] == gs;
  }

  /** One entry added to the running weighted sum, total credits and earned credits. */
  method AddEntry(w: real, tc: int, ec: int, g: CourseGrade) returns (w': real, tc': int, ec': int)
    ensures w' == w + WeightOf(g) && tc' == tc + g.credits && ec' == ec + (if IsEarned(g) then g.credits else 0)
  {
    w', tc', ec' := w, tc + g.credits, ec;
    if g.total.Some? {
      w' := w + g.total.value * g.credits as real;
    }
    if IsEarned(g) {
      ec' := ec + g.credits;
    }
  }

  /** The loop over the learner's enrolments: the sheet with its running sums. */
  method Tally(userId: string, st: Store, rows: seq<Enrolment>)
    returns (courses: seq<CourseGrade>, totalWeightedScore: real, totalCredits: int, earnedCredits: int)
    ensures courses == Grades(st, userId, rows)
    ensures totalWeightedScore == WeightedSum(courses)
    ensures totalCredits == TotalCredits(courses) && earnedCredits == EarnedCredits(courses)
  {
    courses, totalWeightedScore, totalCredits, earnedCredits := [], 0.0, 0, 0;
    for i := 0 to |rows|
      invariant courses == Grades(st, userId, rows[..i])
      invariant totalWeightedScore == WeightedSum(courses)
      invariant totalCredits == TotalCredits(courses)
      invariant earnedCredits == EarnedCredits(courses)
    {
      var e := rows[i];
      GradesStep(st, userId, rows, i);
      if Visited(st, userId, e) {
        var g := GradeOf(st, userId, st.courses[e.courseId]);
        totalWeightedScore, totalCredits, earnedCredits := AddEntry(totalWeightedScore, totalCredits, earnedCredits, g);
        SumsSnoc(courses, g);
        courses := courses + [g];
      }
    }
    assert rows[..|rows|] == rows;
  }

  /** `getUserGrades`. */
  method GetUserGrades(userId: string, st: Store) returns (r: Result<GradeSummary, GradeError>)
    ensures r.Err? <==> !IsObjectId(userId)
    ensures r.Ok? ==> r.value.userId == userId
    ensures r.Ok? ==> r.value.courses == Grades(st, userId, st.enrolments)
    ensures r.Ok? ==> r.value.totalCredits == TotalCredits(r.value.courses)
    ensures r.Ok? ==> r.value.earnedCredits == EarnedCredits(r.value.courses)
    ensures r.Ok? ==> r.value.gpa == Gpa(WeightedSum(r.value.courses), r.value.totalCredits)
  {
    if !IsObjectId(userId) {
      return Err(InvalidUserId);
    }
    var courses, totalWeightedScore, totalCredits, earnedCredits := Tally(userId, st, st.enrolments);
    r := Ok(GradeSummary(userId, totalCredits, earnedCredits, Gpa(totalWeightedScore, totalCredits), courses));
  }
}
