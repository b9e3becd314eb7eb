/**
 * A learner's progress report: per approved course, distinct exercises attempted against the
 * course's exercises, a weighted percentage with its tier, an estimated study time; overall,
 * the exercise counts, the average score and the run of consecutive active days.
 */
module ProgressReport {
  import opened Wrappers
  import opened Numeric
  import opened Text
  import opened Records
  import opened BestAttempt
  import opened ScoreAggregator

  /** A lesson of a course; only published lessons are counted. */
  datatype Lesson = Lesson(courseId: string, isPublished: bool)

  /** The three tiers of a course's weighted percentage. */
  datatype Category = Average | Good | Excellent {
    function Label(): string
    {
      match this
      case Average => "Trung bình"
      case Good => "Tốt"
      case Excellent => "Xuất sắc"
    }

    function Rank(): nat
    {
      match this
      case Average => 0
      case Good => 1
      case Excellent => 2
    }
  }

  /** At least 80 is excellent, at least 60 good, anything lower average. */
  function CategoryOf(weighted: real): (c: Category)
    ensures c == Excellent <==> weighted >= 80.0
    ensures c == Good <==> 60.0 <= weighted < 80.0
    ensures c == Average <==> weighted < 60.0
  {
    if weighted >= 80.0 then Excellent else if weighted >= 60.0 then Good else Average
  }

  /** A higher percentage never lands in a lower tier. */
  lemma CategoryMonotone(x: real, y: real)
    requires x <= y
    ensures CategoryOf(x).Rank() <= CategoryOf(y).Rank()
  {
  }

  /** The numbers of one course that the report's strings and sums are made from. */
  datatype CourseTally = CourseTally(
    lessons: nat,
    exercises: nat,
    completed: nat,
    weighted: Option<real>)

  function PublishedLessons(lessons: seq<Lesson>, courseId: string): nat
  {
    if lessons == [] then 0
    else PublishedLessons(lessons[..|lessons| - 1], courseId)
         + (if lessons[|lessons| - 1].courseId == courseId && lessons[|lessons| - 1].isPublished then 1 else 0)
  }

  /**
   * One course's tally: exercises are the course's quizzes plus practices, completed ones the
   * distinct exercises the learner submitted, and the weighted percentage blends the two kinds'
   * mean best percentages (absent when the course has no exercise at all).
   */
  function TallyOf(st: Store, lessons: seq<Lesson>, userId: string, c: Course): CourseTally
  {
    var quizIds := IdsOf(st.quizzes, c.id);
    var practiceIds := IdsOf(st.practices, c.id);
    CourseTally(
      PublishedLessons(lessons, c.id),
      |quizIds| + |practiceIds|,
      |Attempted(quizIds, st.quizSubmissions, userId, false)| + |Attempted(practiceIds, st.practiceSubmissions, userId, false)|,
      Blend(AveragePercent(BestPercentages(quizIds, st.quizSubmissions, userId)),
            AveragePercent(BestPercentages(practiceIds, st.practiceSubmissions, userId)),
            |quizIds|, |practiceIds|))
  }

  /**
   * A course's tally never shows more completed exercises than it has, has a weighted percentage
   * exactly when it has an exercise, and that percentage lies in [0, 100] when the stored ones do.
   */
  lemma TallyOfFacts(st: Store, lessons: seq<Lesson>, userId: string, c: Course)
    ensures TallyOf(st, lessons, userId, c).completed <= TallyOf(st, lessons, userId, c).exercises
    ensures TallyOf(st, lessons, userId, c).weighted.None? <==> TallyOf(st, lessons, userId, c).exercises == 0
    ensures PercentagesInRange(st) ==> OptBetween(TallyOf(st, lessons, userId, c).weighted, 0.0, 100.0)
  {
    if PercentagesInRange(st) {
      BestPercentagesBetween(IdsOf(st.quizzes, c.id), st.quizSubmissions, userId);
      BestPercentagesBetween(IdsOf(st.practices, c.id), st.practiceSubmissions, userId);
    }
  }

  /** `completed / total * 100` rounded, or 0 when there is nothing to complete. */
  function ProgressPercent(completed: nat, total: nat): (p: int)
    ensures total == 0 ==> p == 0
    ensures completed <= total ==> 0 <= p <= 100
    ensures completed == total ==> p == 100 || total == 0
    ensures total > 0 ==> p == Round(PercentOf(completed as real, total as real))
  {
    if total > 0 then
      var x := PercentOf(completed as real, total as real);
      RoundOfInt(100);
      PercentOfWhole(completed as real, total as real);
      RoundBetween(x, 0, 100);
      Round(x)
    else 0
  }

  /** "Hh Mm" for ten minutes per completed exercise. */
  function StudyTime(completed: nat): (s: string)
    ensures exists h: nat, m: nat :: m < 60 && h * 60 + m == completed * 10 &&
              s == NatToString(h) + "h " + NatToString(m) + "m"
  {
    var minutes := completed * 10;
    assert (minutes / 60) * 60 + minutes % 60 == minutes;
    NatToString(minutes / 60) + "h " + NatToString(minutes % 60) + "m"
  }

  /** "a/b" for two counts. */
  function Ratio(a: nat, b: nat): string
  {
    NatToString(a) + "/" + NatToString(b)
  }

  /** `Math.round(weighted) / 10`: a percentage read on the 0–10 scale, in tenths. */
  function TenthsOfPercent(weighted: real): (r: real)
    ensures IsTenths(r)
    ensures 0.0 <= weighted <= 100.0 ==> 0.0 <= r <= 10.0
  {
    var n := Round(weighted);
    TenthsOfInt(n);
    RoundBetween(weighted, 0, 100);
    n as real / 10.0
  }

  datatype CourseProgressDetail = CourseProgressDetail(
    courseId: string,
    courseCode: string,
    courseName: string,
    category: string,
    progressPercent: int,
    lessonsProgress: string,
    exercisesProgress: string,
    studyTime: string,
    currentScore: real)

  /** The report line of one course, built from its tally. */
  function DetailOf(c: Course, t: CourseTally): CourseProgressDetail
  {
    var w := t.weighted.GetOr(0.0);
    CourseProgressDetail(
      c.id, OrElse(c.code, "N/A"), OrElse(c.name, "Untitled Course"), CategoryOf(w).Label(),
      ProgressPercent(t.completed, t.exercises), Ratio(0, t.lessons), Ratio(t.completed, t.exercises),
      StudyTime(t.completed), TenthsOfPercent(w))
  }

  /**
   * A course line: its progress lies in [0, 100] and is 0 without exercises, lessons are never
   * reported read, and with stored percentages in range its current score lies in [0, 10].
   */
  lemma DetailOfFacts(st: Store, lessons: seq<Lesson>, userId: string, c: Course)
    ensures var t := TallyOf(st, lessons, userId, c);
            var d := DetailOf(c, t);
            0 <= d.progressPercent <= 100 &&
            (t.exercises == 0 ==> d.progressPercent == 0 && d.category == Average.Label() && d.currentScore == 0.0) &&
            d.lessonsProgress == "0/" + NatToString(t.lessons) &&
            (PercentagesInRange(st) ==> 0.0 <= d.currentScore <= 10.0)
  {
    var t := TallyOf(st, lessons, userId, c);
    TallyOfFacts(st, lessons, userId, c);
    DetailOfTally(c, t);
  }

  /** The line of a tally whose counts and percentage are consistent. */
  lemma DetailOfTally(c: Course, t: CourseTally)
    requires t.completed <= t.exercises && (t.weighted.None? <==> t.exercises == 0)
    ensures var d := DetailOf(c, t);
            0 <= d.progressPercent <= 100 &&
            (t.exercises == 0 ==> d.progressPercent == 0 && d.category == Average.Label() && d.currentScore == 0.0) &&
            d.lessonsProgress == "0/" + NatToString(t.lessons) &&
            (OptBetween(t.weighted, 0.0, 100.0) ==> 0.0 <= d.currentScore <= 10.0)
  {
    if t.exercises == 0 {
      assert TenthsOfPercent(0.0) == 0.0 by { RoundOfInt(0); }
    }
  }

  /** The tallies of the courses of the visited enrolments among `rows`, in enrolment order. */
  function Tallies(st: Store, lessons: seq<Lesson>, userId: string, rows: seq<Enrolment>): (r: seq<CourseTally>)
    ensures |r| == |Visits(st, userId, rows)|
  {
    var vs := Visits(st, userId, rows);
    seq(|vs|, k requires 0 <= k < |vs| => TallyOf(st, lessons, userId, st.courses[vs[k].courseId]))
  }

  function SumExercises(ts: seq<CourseTally>): nat
  {
    if ts == [] then 0 else SumExercises(ts[..|ts| - 1]) + ts[|ts| - 1].exercises
  }

  function SumCompleted(ts: seq<CourseTally>): nat
  {
    if ts == [] then 0 else SumCompleted(ts[..|ts| - 1]) + ts[|ts| - 1].completed
  }

  /** The courses with a weighted percentage, i.e. with at least one exercise. */
  function ScoreCount(ts: seq<CourseTally>): nat
  {
    if ts == [] then 0 else ScoreCount(ts[..|ts| - 1]) + (if ts[|ts| - 1].weighted.Some? then 1 else 0)
  }

  function ScoreSum(ts: seq<CourseTally>): real
  {
    if ts == [] then 0.0 else ScoreSum(ts[..|ts| - 1]) + ts[|ts| - 1].weighted.GetOr(0.0)
  }

  lemma {:induction false} CompletedAtMostExercises(ts: seq<CourseTally>)
    requires forall i :: 0 <= i < |ts| ==> ts[i].completed <= ts[i].exercises
    ensures SumCompleted(ts) <= SumExercises(ts)
  {
    if ts != [] {
      CompletedAtMostExercises(ts[..|ts| - 1]);
    }
  }

  lemma {:induction false} ScoreSumBetween(ts: seq<CourseTally>)
    requires forall i :: 0 <= i < |ts| ==> OptBetween(ts[i].weighted, 0.0, 100.0)
    ensures 0.0 <= ScoreSum(ts) <= 100.0 * ScoreCount(ts) as real
  {
    if ts != [] {
      var init := ts[..|ts| - 1];
      assert forall i :: 0 <= i < |init| ==> init[i] == ts[i];
      ScoreSumBetween(init);
    }
  }

  /** `Math.round(totalScoreSum / scoreCount) / 10`, or 0 when no course had exercises. */
  function AverageScore(sum: real, count: nat): (r: real)
    ensures count == 0 ==> r == 0.0
    ensures count > 0 && 0.0 <= sum <= 100.0 * count as real ==> 0.0 <= r <= 10.0
  {
    if count > 0 then
      if 0.0 <= sum <= 100.0 * count as real then
        DivBetween(sum, count as real, 0.0, 100.0);
        TenthsOfPercent(sum / count as real)
      else TenthsOfPercent(sum / count as real)
    else 0.0
  }

  /** With stored percentages in range, the overall average score lies in [0, 10]. */
  lemma AverageScoreBetween(st: Store, lessons: seq<Lesson>, userId: string)
    requires PercentagesInRange(st)
    ensures var ts := Tallies(st, lessons, userId, st.enrolments);
            0.0 <= AverageScore(ScoreSum(ts), ScoreCount(ts)) <= 10.0
  {
    var vs := Visits(st, userId, st.enrolments);
    var ts := Tallies(st, lessons, userId, st.enrolments);
    forall k | 0 <= k < |ts| ensures OptBetween(ts[k].weighted, 0.0, 100.0) {
      TallyOfFacts(st, lessons, userId, st.courses[vs[k].courseId]);
    }
    ScoreSumBetween(ts);
    if ScoreCount(ts) == 0 {
      assert AverageScore(ScoreSum(ts), 0) == 0.0;
    }
  }

  /** The overall exercise count never shows more completed than there are. */
  lemma ExercisesCompletedAtMostTotal(st: Store, lessons: seq<Lesson>, userId: string)
    ensures var ts := Tallies(st, lessons, userId, st.enrolments);
            SumCompleted(ts) <= SumExercises(ts)
  {
    var vs := Visits(st, userId, st.enrolments);
    var ts := Tallies(st, lessons, userId, st.enrolments);
    forall k | 0 <= k < |ts| ensures ts[k].completed <= ts[k].exercises {
      TallyOfFacts(st, lessons, userId, st.courses[vs[k].courseId]);
    }
    CompletedAtMostExercises(ts);
  }

  /** The days with at least one of the learner's attempts dated no earlier than `since`. */
  ghost function ActiveDaysOf(subs: seq<Submission>, userId: string, since: int): set<int>
  {
    set i | 0 <= i < |subs| && subs[i].studentId == userId && subs[i].submittedAt.Some?
              && subs[i].submittedAt.value >= since :: subs[i].submittedAt.value
  }

  /** Collects the active days of a list of attempts into `days`. */
  method AddActiveDays(days: set<int>, subs: seq<Submission>, userId: string, since: int) returns (r: set<int>)
    ensures r == days + ActiveDaysOf(subs, userId, since)
  {
    r := days;
    for i := 0 to |subs|
      invariant r == days + ActiveDaysOf(subs[..i], userId, since)
    {
      var s := subs[i];
      assert subs[..i + 1] == subs[..i] + [s];
      if s.studentId == userId && s.submittedAt.Some? && s.submittedAt.value >= since {
        r := r + {s.submittedAt.value};
        assert ActiveDaysOf(subs[..i + 1], userId, since) == ActiveDaysOf(subs[..i], userId, since) + {s.submittedAt.value} by {
          var small := subs[..i];
          var big := subs[..i + 1];
          assert forall j :: 0 <= j < i ==> big[j] == small[j];
          assert big[i] == s;
        }
      } else {
        assert ActiveDaysOf(subs[..i + 1], userId, since) == ActiveDaysOf(subs[..i], userId, since) by {
          var small := subs[..i];
          var big := subs[..i + 1];
          assert forall j :: 0 <= j < i ==> big[j] == small[j];
          assert big[i] == s;
        }
      }
    }
    assert subs[..|subs|] == subs;
  }

  /** The day the backward count starts from: today when active, otherwise yesterday (one grace day). */
  function StreakStart(active: set<int>, today: int): (d: int)
    ensures d == today || (d == today - 1 && today !in active)
    ensures today in active ==> d == today
  {
    if today in active then today else today - 1
  }

  /** `n` consecutive active days end at `start`, and the day before them is not active. */
  ghost predicate IsStreak(active: set<int>, start: int, n: nat)
  {
    (forall d :: start - n < d <= start ==> d in active) && start - n !in active
  }

  /** The run from a given start has exactly one length. */
  lemma StreakUnique(active: set<int>, start: int, n: nat, m: nat)
    requires IsStreak(active, start, n) && IsStreak(active, start, m)
    ensures n == m
  {
    assert n < m ==> start - n in active;
    assert m < n ==> start - m in active;
  }

  /** A run that ends at `start` among days no earlier than `since` is at most `start - since + 1` long. */
  lemma StreakBounded(active: set<int>, start: int, n: nat, since: int)
    requires IsStreak(active, start, n)
    requires forall d :: d in active ==> d >= since
    ensures n <= if start >= since then start - since + 1 else 0
  {
    assert n > 0 ==> start in active;
    assert start >= since && n > start - since + 1 ==> since - 1 in active;
  }

  /** The backward day-by-day count of active days. */
  method Streak(active: set<int>, today: int) returns (streak: nat)
    ensures IsStreak(active, StreakStart(active, today), streak)
  {
    var check := today;
    if check !in active {
      check := check - 1;
    }
    ghost var start := check;
    streak := 0;
    ghost var rem := set d | d in active && d <= check;
    while check in active
      invariant check == start - streak
      invariant forall d :: check < d <= start ==> d in active
      invariant rem == set d | d in active && d <= check
      decreases |rem|
    {
      ghost var old_rem := rem;
      streak := streak + 1;
      check := check - 1;
      rem := set d | d in active && d <= check;
      assert rem == old_rem - {check + 1};
    }
  }

  datatype ProgressReportData = ProgressReportData(
    userId: string,
    streakDays: nat,
    lessonsCompleted: nat,
    exercisesCompleted: string,
    averageScore: real,
    courseProgress: seq<CourseProgressDetail>)

  datatype ProgressError = InvalidUserId

  /** The report lines of the visited enrolments among `rows`, in enrolment order. */
  function Details(st: Store, lessons: seq<Lesson>, userId: string, rows: seq<Enrolment>): (r: seq<CourseProgressDetail>)
    ensures |r| == |Visits(st, userId, rows)|
  {
    var vs := Visits(st, userId, rows);
    seq(|vs|, k requires 0 <= k < |vs| =>
      DetailOf(st.courses[vs[k].courseId], TallyOf(st, lessons, userId, st.courses[vs[k].courseId])))
  }

  /** The learner's active days of the last 30 days, over both kinds of attempt. */
  ghost function RecentActiveDays(st: Store, userId: string, today: int): set<int>
  {
    ActiveDaysOf(st.quizSubmissions, userId, today - 30) + ActiveDaysOf(st.practiceSubmissions, userId, today - 30)
  }

  /** The streak part of the report: collect the recent active days, then count back. */
  method ReportStreak(st: Store, userId: string, today: int) returns (streakDays: nat)
    ensures IsStreak(RecentActiveDays(st, userId, today), StreakStart(RecentActiveDays(st, userId, today), today), streakDays)
  {
    var active := AddActiveDays({}, st.quizSubmissions, userId, today - 30);
    active := AddActiveDays(active, st.practiceSubmissions, userId, today - 30);
    assert active == RecentActiveDays(st, userId, today);
    streakDays := Streak(active, today);
  }

  /** One more enrolment row adds its course's tally when the row is visited, and nothing otherwise. */
  lemma TalliesStep(st: Store, lessons: seq<Lesson>, userId: string, rows: seq<Enrolment>, i: nat)
    requires i < |rows|
    ensures Tallies(st, lessons, userId, rows[..i + 1]) == Tallies(st, lessons, userId, rows[..i]) +
      (if Visited(st, userId, rows[i]) then [TallyOf(st, lessons, userId, st.courses[rows[i].courseId])] else [])
  {
    VisitsStep(st, userId, rows, i);
  }

  /** One more enrolment row adds its course's line when the row is visited, and nothing otherwise. */
  lemma DetailsStep(st: Store, lessons: seq<Lesson>, userId: string, rows: seq<Enrolment>, i: nat)
    requires i < |rows|
    ensures Details(st, lessons, userId, rows[..i + 1]) == Details(st, lessons, userId, rows[..i]) +
      (if Visited(st, userId, rows[i])
       then [DetailOf(st.courses[rows[i].courseId], TallyOf(st, lessons, userId, st.courses[rows[i].courseId]))]
       else [])
  {
    VisitsStep(st, userId, rows, i);
  }

  lemma SumsSnoc(ts: seq<CourseTally>, t: CourseTally)
    ensures SumExercises(ts + [t]) == SumExercises(ts) + t.exercises
    ensures SumCompleted(ts + [t]) == SumCompleted(ts) + t.completed
    ensures ScoreSum(ts + [t]) == ScoreSum(ts) + t.weighted.GetOr(0.0)
    ensures ScoreCount(ts + [t]) == ScoreCount(ts) + (if t.weighted.Some? then 1 else 0)
  {
    assert (ts + [t])[..|ts|] == ts;
  }

  /** One course's tally added to the running exercise counts, score sum and score count. */
  method AddTally(completed: nat, exercises: nat, scoreSum: real, count: nat, t: CourseTally)
    returns (completed': nat, exercises': nat, scoreSum': real, count': nat)
    ensures completed' == completed + t.completed && exercises' == exercises + t.exercises
    ensures scoreSum' == scoreSum + t.weighted.GetOr(0.0) && count' == count + (if t.weighted.Some? then 1 else 0)
  {
    completed', exercises', scoreSum', count' := completed + t.completed, exercises + t.exercises, scoreSum, count;
    if t.weighted.Some? {
      scoreSum' := scoreSum + t.weighted.value;
      count' := count + 1;
    }
  }

  /** One visited course: its line appended and its tally added to the running sums. */
  method AddLine(lines: seq<CourseProgressDetail>, completed: nat, exercises: nat, scoreSum: real, count: nat,
                 ghost ts: seq<CourseTally>, c: Course, t: CourseTally)
    returns (lines': seq<CourseProgressDetail>, completed': nat, exercises': nat, scoreSum': real, count': nat)
    requires exercises == SumExercises(ts) && completed == SumCompleted(ts)
    requires scoreSum == ScoreSum(ts) && count == ScoreCount(ts)
    ensures lines' == lines + [DetailOf(c, t)]
    ensures exercises' == SumExercises(ts + [t]) && completed' == SumCompleted(ts + [t])
    ensures scoreSum' == ScoreSum(ts + [t]) && count' == ScoreCount(ts + [t])
  {
    SumsSnoc(ts, t);
    completed', exercises', scoreSum', count' := AddTally(completed, exercises, scoreSum, count, t);
    lines' := lines + [DetailOf(c, t)];
  }

  /** The per-course loop of the report: one line per visited enrolment, and the running sums. */
  method CourseLines(userId: string, st: Store, lessons: seq<Lesson>)
    returns (courseProgress: seq<CourseProgressDetail>, totalExercisesCompleted: nat, totalExercises: nat,
             totalScoreSum: real, scoreCount: nat)
    ensures var ts := Tallies(st, lessons, userId, st.enrolments);
            courseProgress == Details(st, lessons, userId, st.enrolments) &&
            totalExercisesCompleted == SumCompleted(ts) && totalExercises == SumExercises(ts) &&
            totalScoreSum == ScoreSum(ts) && scoreCount == ScoreCount(ts)
  {
    var rows := st.enrolments;
    ghost var ts: seq<CourseTally> := [];
    courseProgress := [];
    totalExercisesCompleted := 0;
    totalExercises := 0;
    totalScoreSum := 0.0;
    scoreCount := 0;
    for i := 0 to |rows|
      invariant ts == Tallies(st, lessons, userId, rows[..i])
      invariant courseProgress == Details(st, lessons, userId, rows[..i])
      invariant totalExercises == SumExercises(ts) && totalExercisesCompleted == SumCompleted(ts)
      invariant totalScoreSum == ScoreSum(ts) && scoreCount == ScoreCount(ts)
    {
      var e := rows[i];
      VisitsStep(st, userId, rows, i);
      if Visited(st, userId, e) {
        TalliesStep(st, lessons, userId, rows, i);
        DetailsStep(st, lessons, userId, rows, i);
        var c := st.courses[e.courseId];
        var t := TallyOf(st, lessons, userId, c);
        courseProgress, totalExercisesCompleted, totalExercises, totalScoreSum, scoreCount :=
          AddLine(courseProgress, totalExercisesCompleted, totalExercises, totalScoreSum, scoreCount, ts, c, t);
        ts := ts + [t];
      } else {
        TalliesStep(st, lessons, userId, rows, i);
        DetailsStep(st, lessons, userId, rows, i);
      }
    }
    assert rows[..|rows|] == rows;
  }

  /** `getUserProgressReport`, with `today` the current calendar day. */
  method GetUserProgressReport(userId: string, st: Store, lessons: seq<Lesson>, today: int)
    returns (r: Result<ProgressReportData, ProgressError>)
    ensures r.Err? <==> !IsObjectId(userId)
    ensures r.Ok? ==>
      var ts := Tallies(st, lessons, userId, st.enrolments);
      var active := RecentActiveDays(st, userId, today);
      r.value.userId == userId &&
      r.value.courseProgress == Details(st, lessons, userId, st.enrolments) &&
      r.value.lessonsCompleted == 0 &&
      r.value.exercisesCompleted == Ratio(SumCompleted(ts), SumExercises(ts)) &&
      r.value.averageScore == AverageScore(ScoreSum(ts), ScoreCount(ts)) &&
      IsStreak(active, StreakStart(active, today), r.value.streakDays)
  {
    if !IsObjectId(userId) {
      return Err(InvalidUserId);
    }
    var courseProgress, totalExercisesCompleted, totalExercises, totalScoreSum, scoreCount := CourseLines(userId, st, lessons);
    var streakDays := ReportStreak(st, userId, today);
    r := Ok(ProgressReportData(userId, streakDays, 0, Ratio(totalExercisesCompleted, totalExercises),
                               AverageScore(totalScoreSum, scoreCount), courseProgress));
  }

  /** The reported streak is at most 31 days: only the last 30 days before today count as active. */
  lemma ReportedStreakAtMost31(active: set<int>, today: int, n: nat)
    requires forall d :: d in active ==> d >= today - 30
    requires IsStreak(active, StreakStart(active, today), n)
    ensures n <= 31
    ensures active == {} ==> n == 0
  {
    StreakBounded(active, StreakStart(active, today), n, today - 30);
    assert n > 0 ==> StreakStart(active, today) in active;
  }
}
