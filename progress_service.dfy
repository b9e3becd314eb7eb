/**
 * The progress service: one course's exercise counts and completion percentage, the map of
 * several courses' progress (courses whose computation fails are dropped) and a learner's
 * overall figures folded from that map.
 */
module ProgressService {
  import opened Wrappers
  import opened Numeric
  import opened BestAttempt
  import opened Records
  import ProgressReport

  datatype ProgressFault = InvalidCourseId | InvalidUserId

  datatype KindProgress = KindProgress(total: nat, completed: nat, passed: nat)

  datatype LessonProgress = LessonProgress(total: nat, completed: nat)

  datatype CourseProgressSummary = CourseProgressSummary(
    courseId: string,
    userId: string,
    totalExercises: nat,
    completedExercises: nat,
    quizProgress: KindProgress,
    practiceProgress: KindProgress,
    lessonProgress: LessonProgress,
    progressPercent: int)

  /** One kind's counts: its exercises, the distinct ones submitted, the distinct ones passed. */
  function KindOf(ids: seq<string>, subs: seq<Submission>, userId: string): KindProgress
  {
    KindProgress(|ids|, |Attempted(ids, subs, userId, false)|, |Attempted(ids, subs, userId, true)|)
  }

  /** Each count is filtered from the one before: passed <= completed <= total. */
  lemma KindOfOrdered(ids: seq<string>, subs: seq<Submission>, userId: string)
    ensures KindOf(ids, subs, userId).passed <= KindOf(ids, subs, userId).completed <= KindOf(ids, subs, userId).total
  {
    PassedAtMostAttempted(ids, subs, userId);
  }

  /** `getCourseProgress`. */
  function CourseProgress(st: Store, lessons: seq<ProgressReport.Lesson>, courseId: string, userId: string): Result<CourseProgressSummary, ProgressFault>
  {
    if !IsObjectId(courseId) then Err(InvalidCourseId)
    else if !IsObjectId(userId) then Err(InvalidUserId)
    else
      var q := KindOf(IdsOf(st.quizzes, courseId), st.quizSubmissions, userId);
      var p := KindOf(IdsOf(st.practices, courseId), st.practiceSubmissions, userId);
      var total := q.total + p.total;
      var completed := q.completed + p.completed;
      Ok(CourseProgressSummary(courseId, userId, total, completed, q, p,
                               LessonProgress(ProgressReport.PublishedLessons(lessons, courseId), 0),
                               ProgressReport.ProgressPercent(completed, total)))
  }

  /**
   * Malformed ids are refused, the course id first. A summary's totals are the sums of the two
   * kinds, each kind has passed <= completed <= total, no lesson is ever completed, and the
   * percentage is 0 without exercises and otherwise the rounded share, in [0, 100].
   */
  lemma CourseProgressFacts(st: Store, lessons: seq<ProgressReport.Lesson>, courseId: string, userId: string)
    ensures var r := CourseProgress(st, lessons, courseId, userId);
      (!IsObjectId(courseId) ==> r == Err(InvalidCourseId)) &&
      (IsObjectId(courseId) && !IsObjectId(userId) ==> r == Err(InvalidUserId)) &&
      (r.Ok? <==> IsObjectId(courseId) && IsObjectId(userId))
    ensures var r := CourseProgress(st, lessons, courseId, userId);
      r.Ok? ==>
        var s := r.value;
        s.courseId == courseId && s.userId == userId &&
        s.totalExercises == s.quizProgress.total + s.practiceProgress.total &&
        s.completedExercises == s.quizProgress.completed + s.practiceProgress.completed &&
        s.quizProgress.total == |IdsOf(st.quizzes, courseId)| && s.practiceProgress.total == |IdsOf(st.practices, courseId)| &&
        s.quizProgress.passed <= s.quizProgress.completed <= s.quizProgress.total &&
        s.practiceProgress.passed <= s.practiceProgress.completed <= s.practiceProgress.total &&
        s.completedExercises <= s.totalExercises &&
        s.lessonProgress.completed == 0 &&
        (s.totalExercises == 0 ==> s.progressPercent == 0) &&
        (s.totalExercises > 0 ==> s.progressPercent == Round(PercentOf(s.completedExercises as real, s.totalExercises as real))) &&
        0 <= s.progressPercent <= 100
  {
    if IsObjectId(courseId) && IsObjectId(userId) {
      var q := KindOf(IdsOf(st.quizzes, courseId), st.quizSubmissions, userId);
      var p := KindOf(IdsOf(st.practices, courseId), st.practiceSubmissions, userId);
      KindOfOrdered(IdsOf(st.quizzes, courseId), st.quizSubmissions, userId);
      KindOfOrdered(IdsOf(st.practices, courseId), st.practiceSubmissions, userId);
      var total, completed := q.total + p.total, q.completed + p.completed;
      assert completed <= total;
      var pct := ProgressReport.ProgressPercent(completed, total);
      assert CourseProgress(st, lessons, courseId, userId) ==
        Ok(CourseProgressSummary(courseId, userId, total, completed, q, p,
                                 LessonProgress(ProgressReport.PublishedLessons(lessons, courseId), 0), pct));
    }
  }

  // ---------------------------------------------------------------- several courses

  /** One entry of the `Map<string, CourseProgressSummary>`, kept in insertion order. */
  datatype Entry = Entry(courseId: string, summary: CourseProgressSummary)

  function KeyIndex(m: seq<Entry>, k: string): (r: Option<nat>)
    ensures r.None? <==> forall i :: 0 <= i < |m| ==> m[i].courseId != k
    ensures r.Some? ==> r.value < |m| && m[r.value].courseId == k
  {
    if m == [] then None
    else if m[|m| - 1].courseId == k then Some(|m| - 1)
    else KeyIndex(m[..|m| - 1], k)
  }

  /** `Map.set`: an existing key keeps its place and takes the new value; a new key goes last. */
  function SetEntry(m: seq<Entry>, k: string, v: CourseProgressSummary): seq<Entry>
  {
    match KeyIndex(m, k)
    case Some(i) => m[i := Entry(k, v)]
    case None => m + [Entry(k, v)]
  }

  predicate KeysDistinct(m: seq<Entry>)
  {
    forall i, j :: 0 <= i < j < |m| ==> m[i].courseId != m[j].courseId
  }

  /** The map after the given courses, in order; a course whose computation fails is left out. */
  function ProgressMap(st: Store, lessons: seq<ProgressReport.Lesson>, userId: string, courseIds: seq<string>): seq<Entry>
  {
    if courseIds == [] then []
    else
      var prev := ProgressMap(st, lessons, userId, courseIds[..|courseIds| - 1]);
      var k := courseIds[|courseIds| - 1];
      match CourseProgress(st, lessons, k, userId)
      case Err(_) => prev
      case Ok(v) => SetEntry(prev, k, v)
  }

  /** The keys of the map. */
  function Keys(m: seq<Entry>): set<string>
  {
    set i | 0 <= i < |m| :: m[i].courseId
  }

  /** Every entry holds its course's summary, and keys are distinct. */
  predicate Faithful(st: Store, lessons: seq<ProgressReport.Lesson>, userId: string, m: seq<Entry>)
  {
    KeysDistinct(m) &&
    forall i :: 0 <= i < |m| ==> CourseProgress(st, lessons, m[i].courseId, userId) == Ok(m[i].summary)
  }

  lemma SetEntryFaithful(st: Store, lessons: seq<ProgressReport.Lesson>, userId: string, m: seq<Entry>, k: string,
                         v: CourseProgressSummary)
    requires Faithful(st, lessons, userId, m) && CourseProgress(st, lessons, k, userId) == Ok(v)
    ensures Faithful(st, lessons, userId, SetEntry(m, k, v))
    ensures Keys(SetEntry(m, k, v)) == Keys(m) + {k}
  {
    var m' := SetEntry(m, k, v);
    match KeyIndex(m, k)
    case Some(i) =>
      assert m[i] == Entry(k, v);
      assert m' == m;
    case None =>
      assert m' == m + [Entry(k, v)];
      assert m'[|m|].courseId == k;
      assert forall i :: 0 <= i < |m| ==> m'[i] == m[i];
  }

  /** The keys the given courses leave in the map: those whose computation succeeds. */
  function Succeeding(st: Store, lessons: seq<ProgressReport.Lesson>, userId: string, courseIds: seq<string>): set<string>
  {
    set x | x in courseIds && CourseProgress(st, lessons, x, userId).Ok?
  }

  /**
   * The map holds exactly the courses of the list whose computation succeeds, each once and with
   * its own summary; so repeating a course does not count it twice, and with a malformed learner
   * id the map is empty.
   */
  lemma {:induction false} ProgressMapFacts(st: Store, lessons: seq<ProgressReport.Lesson>, userId: string, courseIds: seq<string>)
    ensures Faithful(st, lessons, userId, ProgressMap(st, lessons, userId, courseIds))
    ensures Keys(ProgressMap(st, lessons, userId, courseIds)) == Succeeding(st, lessons, userId, courseIds)
    ensures !IsObjectId(userId) ==> ProgressMap(st, lessons, userId, courseIds) == []
  {
    if courseIds != [] {
      var prefix := courseIds[..|courseIds| - 1];
      var k := courseIds[|courseIds| - 1];
      ProgressMapFacts(st, lessons, userId, prefix);
      var prev := ProgressMap(st, lessons, userId, prefix);
      assert courseIds == prefix + [k];
      var r := CourseProgress(st, lessons, k, userId);
      if r.Ok? {
        SetEntryFaithful(st, lessons, userId, prev, k, r.value);
        assert Succeeding(st, lessons, userId, courseIds) == Succeeding(st, lessons, userId, prefix) + {k};
      } else {
        assert Succeeding(st, lessons, userId, courseIds) == Succeeding(st, lessons, userId, prefix);
      }
    }
  }

  lemma ProgressMapStep(st: Store, lessons: seq<ProgressReport.Lesson>, userId: string, courseIds: seq<string>, i: nat)
    requires i < |courseIds|
    ensures ProgressMap(st, lessons, userId, courseIds[..i + 1]) ==
      match CourseProgress(st, lessons, courseIds[i], userId)
      case Err(_) => ProgressMap(st, lessons, userId, courseIds[..i])
      case Ok(v) => SetEntry(ProgressMap(st, lessons, userId, courseIds[..i]), courseIds[i], v)
  {
    assert courseIds[..i + 1][..i] == courseIds[..i];
  }

  /** `getMultipleCoursesProgress`, one course after another. */
  method GetMultipleCoursesProgress(st: Store, lessons: seq<ProgressReport.Lesson>, courseIds: seq<string>, userId: string)
    returns (m: seq<Entry>)
    ensures m == ProgressMap(st, lessons, userId, courseIds)
  {
    m := [];
    for i := 0 to |courseIds|
      invariant m == ProgressMap(st, lessons, userId, courseIds[..i])
    {
      ProgressMapStep(st, lessons, userId, courseIds, i);
      var progress := CourseProgress(st, lessons, courseIds[i], userId);
      if progress.Ok? {
        var at := KeyIndex(m, courseIds[i]);
        if at.Some? {
          m := m[at.value := Entry(courseIds[i], progress.value)];
        } else {
          m := m + [Entry(courseIds[i], progress.value)];
        }
      }
    }
    assert courseIds[..|courseIds|] == courseIds;
  }

  // ---------------------------------------------------------------- overall

  datatype OverallProgress = OverallProgress(totalCourses: nat, totalExercises: nat, completedExercises: nat, averageProgress: int)

  function SumTotal(m: seq<Entry>): nat
  {
    if m == [] then 0 else SumTotal(m[..|m| - 1]) + m[|m| - 1].summary.totalExercises
  }

  function SumDone(m: seq<Entry>): nat
  {
    if m == [] then 0 else SumDone(m[..|m| - 1]) + m[|m| - 1].summary.completedExercises
  }

  function SumPercent(m: seq<Entry>): int
  {
    if m == [] then 0 else SumPercent(m[..|m| - 1]) + m[|m| - 1].summary.progressPercent
  }

  /** The overall figures of a map: its size, the summed counts, the rounded mean percentage (0 when empty). */
  function OverallOf(m: seq<Entry>): OverallProgress
  {
    OverallProgress(|m|, SumTotal(m), SumDone(m), if |m| > 0 then Round(SumPercent(m) as real / |m| as real) else 0)
  }

  /** Summaries whose counts and percentages are in range sum to figures in range. */
  lemma {:induction false} SumsInRange(m: seq<Entry>)
    requires forall i :: 0 <= i < |m| ==> m[i].summary.completedExercises <= m[i].summary.totalExercises
    requires forall i :: 0 <= i < |m| ==> 0 <= m[i].summary.progressPercent <= 100
    ensures SumDone(m) <= SumTotal(m)
    ensures 0 <= SumPercent(m) <= 100 * |m|
  {
    if m != [] {
      SumsInRange(m[..|m| - 1]);
    }
  }

  /** Every summary in the map has its counts and percentage in range. */
  lemma MapSummariesInRange(st: Store, lessons: seq<ProgressReport.Lesson>, userId: string, courseIds: seq<string>)
    ensures var m := ProgressMap(st, lessons, userId, courseIds);
      forall i :: 0 <= i < |m| ==>
        m[i].summary.completedExercises <= m[i].summary.totalExercises && 0 <= m[i].summary.progressPercent <= 100
  {
    var m := ProgressMap(st, lessons, userId, courseIds);
    ProgressMapFacts(st, lessons, userId, courseIds);
    forall i | 0 <= i < |m|
      ensures m[i].summary.completedExercises <= m[i].summary.totalExercises && 0 <= m[i].summary.progressPercent <= 100
    {
      CourseProgressFacts(st, lessons, m[i].courseId, userId);
    }
  }

  /** The fold of in-range summaries is in range. */
  lemma OverallInRange(m: seq<Entry>)
    requires forall i :: 0 <= i < |m| ==>
      m[i].summary.completedExercises <= m[i].summary.totalExercises && 0 <= m[i].summary.progressPercent <= 100
    ensures OverallOf(m).completedExercises <= OverallOf(m).totalExercises
    ensures 0 <= OverallOf(m).averageProgress <= 100
  {
    SumsInRange(m);
    if |m| > 0 {
      var n := |m| as real;
      var s := SumPercent(m) as real;
      assert 0.0 <= s <= n * 100.0;
      DivBetween(s, n, 0.0, 100.0);
      RoundBetween(s / n, 0, 100);
    }
  }

  /**
   * `getUserOverallProgress`: it counts each successfully computed course once, never shows more
   * completed exercises than exist, and its average progress lies in [0, 100] (0 for no course).
   */
  lemma OverallFacts(st: Store, lessons: seq<ProgressReport.Lesson>, userId: string, courseIds: seq<string>)
    ensures var o := OverallOf(ProgressMap(st, lessons, userId, courseIds));
      o.completedExercises <= o.totalExercises && 0 <= o.averageProgress <= 100 &&
      o.totalCourses == |Succeeding(st, lessons, userId, courseIds)| &&
      (o.totalCourses == 0 ==> o.averageProgress == 0 && o.totalExercises == 0) &&
      (!IsObjectId(userId) ==> o.totalCourses == 0)
  {
    var m := ProgressMap(st, lessons, userId, courseIds);
    ProgressMapFacts(st, lessons, userId, courseIds);
    MapSummariesInRange(st, lessons, userId, courseIds);
    OverallInRange(m);
    DistinctKeysCount(m);
  }

  /** Distinct keys: as many keys as entries. */
  lemma {:induction false} DistinctKeysCount(m: seq<Entry>)
    requires KeysDistinct(m)
    ensures |Keys(m)| == |m|
  {
    if m != [] {
      var p := m[..|m| - 1];
      assert KeysDistinct(p);
      DistinctKeysCount(p);
      assert Keys(m) == Keys(p) + {m[|m| - 1].courseId};
      assert m[|m| - 1].courseId !in Keys(p);
    }
  }

  lemma SumsSnocStep(m: seq<Entry>, i: nat)
    requires i < |m|
    ensures SumTotal(m[..i + 1]) == SumTotal(m[..i]) + m[i].summary.totalExercises
    ensures SumDone(m[..i + 1]) == SumDone(m[..i]) + m[i].summary.completedExercises
    ensures SumPercent(m[..i + 1]) == SumPercent(m[..i]) + m[i].summary.progressPercent
  {
    assert m[..i + 1][..i] == m[..i];
  }

  method GetUserOverallProgress(st: Store, lessons: seq<ProgressReport.Lesson>, userId: string, courseIds: seq<string>)
    returns (o: OverallProgress)
    ensures o == OverallOf(ProgressMap(st, lessons, userId, courseIds))
  {
    var m := GetMultipleCoursesProgress(st, lessons, courseIds, userId);
    var totalExercises := 0;
    var completedExercises := 0;
    var totalProgress := 0;
    var courseCount := 0;
    for i := 0 to |m|
      invariant totalExercises == SumTotal(m[..i])
      invariant completedExercises == SumDone(m[..i])
      invariant totalProgress == SumPercent(m[..i])
      invariant courseCount == i
    {
      SumsSnocStep(m, i);
      totalExercises := totalExercises + m[i].summary.totalExercises;
      completedExercises := completedExercises + m[i].summary.completedExercises;
      totalProgress := totalProgress + m[i].summary.progressPercent;
      courseCount := courseCount + 1;
    }
    assert m[..|m|] == m;
    var average := if courseCount > 0 then Round(totalProgress as real / courseCount as real) else 0;
    o := OverallProgress(courseCount, totalExercises, completedExercises, average);
  }
}
