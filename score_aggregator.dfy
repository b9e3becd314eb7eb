/**
 * Per-course score aggregation: best-attempt percentages averaged per assessment kind,
 * rounded to a 0–10 score, then blended with the quiz/practice weights.
 */
module ScoreAggregator {
  import opened Wrappers
  import opened Numeric
  import opened BestAttempt

  /** The two assessment kinds and their weights (0.4 and 0.6 in the source). */
  datatype Kind = Quiz | Practice {
    function Weight(): real
    {
      match this
      case Quiz => 2.0 / 5.0
      case Practice => 3.0 / 5.0
    }

    /** A kind with no assessment in the course carries no weight. */
    function ActiveWeight(count: nat): (w: real)
      ensures w == 0.0 <==> count == 0
    {
      if count > 0 then Weight() else 0.0
    }
  }

  /** An optional value that, when present, lies in [lo, hi]. */
  predicate OptBetween(o: Option<real>, lo: real, hi: real)
  {
    o.None? || lo <= o.value <= hi
  }

  /** A real that is a whole number of tenths. */
  predicate IsTenths(x: real)
  {
    (x * 10.0).Floor as real == x * 10.0
  }

  /** The unrounded mean of the best percentages (`quizAvgPercent`), null when there are none. */
  function AveragePercent(best: seq<real>): (r: Option<real>)
    ensures r.None? <==> best == []
    ensures r.Some? ==> r.value == Mean(best)
    ensures AllBetween(best, 0.0, 100.0) ==> OptBetween(r, 0.0, 100.0)
  {
    if |best| > 0 then MeanBetween(best, 0.0, 100.0); Some(Mean(best)) else None
  }

  /**
   * `Math.round(avgBest) / 10`: the mean best percentage rounded to a whole percent and read on the
   * 0–10 scale, in tenths; null when no assessment of the kind has an attempt.
   */
  function KindScore(best: seq<real>): (r: Option<real>)
    ensures r.None? <==> best == []
    ensures r.Some? ==> IsTenths(r.value)
    ensures r.Some? ==> Mean(best) - 1.0 / 2.0 < r.value * 10.0 <= Mean(best) + 1.0 / 2.0
    ensures AllBetween(best, 0.0, 100.0) ==> OptBetween(r, 0.0, 10.0)
  {
    match AveragePercent(best)
    case None => None
    case Some(avg) =>
      var n := Round(avg);
      var v := n as real / 10.0;
      assert v * 10.0 == n as real;
      RoundBetween(avg, 0, 100);
      Some(v)
  }

  /**
   * The weighted blend of a quiz figure and a practice figure (a missing figure counts 0, but only
   * inside the sum: the weight depends on whether the kind exists, not on whether it has attempts).
   * Null exactly when the course has no assessment at all.
   */
  function Blend(quiz: Option<real>, practice: Option<real>, quizCount: nat, practiceCount: nat): (r: Option<real>)
    ensures r.None? <==> quizCount == 0 && practiceCount == 0
    ensures quizCount > 0 && practiceCount == 0 ==> r == Some(quiz.GetOr(0.0))
    ensures quizCount == 0 && practiceCount > 0 ==> r == Some(practice.GetOr(0.0))
    ensures quizCount > 0 && practiceCount > 0 ==>
              r == Some(quiz.GetOr(0.0) * (2.0 / 5.0) + practice.GetOr(0.0) * (3.0 / 5.0))
    ensures OptBetween(quiz, 0.0, 10.0) && OptBetween(practice, 0.0, 10.0) ==> OptBetween(r, 0.0, 10.0)
    ensures OptBetween(quiz, 0.0, 100.0) && OptBetween(practice, 0.0, 100.0) ==> OptBetween(r, 0.0, 100.0)
  {
    var qw := Quiz.ActiveWeight(quizCount);
    var pw := Practice.ActiveWeight(practiceCount);
    var tw := qw + pw;
    if tw > 0.0 then Some((quiz.GetOr(0.0) * qw + practice.GetOr(0.0) * pw) / tw) else None
  }

  /** The course total: the blend of the two kind scores, rounded to tenths ('total' in the source). */
  function CourseTotal(quizScore: Option<real>, practiceScore: Option<real>, quizCount: nat, practiceCount: nat): (r: Option<real>)
    ensures r.None? <==> quizCount == 0 && practiceCount == 0
    ensures r.Some? ==> IsTenths(r.value)
    ensures OptBetween(quizScore, 0.0, 10.0) && OptBetween(practiceScore, 0.0, 10.0) ==> OptBetween(r, 0.0, 10.0)
  {
    match Blend(quizScore, practiceScore, quizCount, practiceCount)
    case None => None
    case Some(b) =>
      RoundTenthsBetween(b);
      Some(RoundTenths(b))
  }

  /** `Math.round(x * 10) / 10`: the nearest tenth. */
  function RoundTenths(x: real): (r: real)
    ensures IsTenths(r)
    ensures x - 1.0 / 20.0 < r <= x + 1.0 / 20.0
  {
    var n := Round(x * 10.0);
    TenthsOfInt(n);
    n as real / 10.0
  }

  lemma TenthsOfInt(n: int)
    ensures IsTenths(n as real / 10.0)
  {
    assert (n as real / 10.0) * 10.0 == n as real;
  }

  lemma RoundTenthsBetween(x: real)
    ensures 0.0 <= x <= 10.0 ==> 0.0 <= RoundTenths(x) <= 10.0
  {
    RoundBetween(x * 10.0, 0, 100);
  }

  /** Rounding is the identity on whole tenths. */
  lemma RoundTenthsOfTenths(x: real)
    requires IsTenths(x)
    ensures RoundTenths(x) == x
  {
    RoundOfInt((x * 10.0).Floor);
  }

  /** A course with quizzes and no practices has total equal to its quiz score (0 with no attempts). */
  lemma QuizOnlyTotal(quizBest: seq<real>, quizCount: nat, practiceScore: Option<real>)
    requires quizCount > 0
    ensures CourseTotal(KindScore(quizBest), practiceScore, quizCount, 0) == Some(KindScore(quizBest).GetOr(0.0))
  {
    var q := KindScore(quizBest).GetOr(0.0);
    assert IsTenths(q) by {
      if quizBest == [] { assert (0.0 * 10.0).Floor == 0; }
    }
    RoundTenthsOfTenths(q);
  }

  /** Likewise for a course with practices only. */
  lemma PracticeOnlyTotal(practiceBest: seq<real>, practiceCount: nat, quizScore: Option<real>)
    requires practiceCount > 0
    ensures CourseTotal(quizScore, KindScore(practiceBest), 0, practiceCount) == Some(KindScore(practiceBest).GetOr(0.0))
  {
    var p := KindScore(practiceBest).GetOr(0.0);
    assert IsTenths(p) by {
      if practiceBest == [] { assert (0.0 * 10.0).Floor == 0; }
    }
    RoundTenthsOfTenths(p);
  }

  /**
   * A kind that exists but has no attempts keeps its weight: the course total is the other
   * kind's score scaled by that kind's weight alone, not renormalised away.
   */
  lemma UnattemptedKindCountsZero(quizScore: Option<real>, quizCount: nat, practiceCount: nat)
    requires quizCount > 0 && practiceCount > 0
    ensures Blend(quizScore, None, quizCount, practiceCount) == Some(quizScore.GetOr(0.0) * (2.0 / 5.0))
    ensures quizScore == Some(10.0) ==> CourseTotal(quizScore, None, quizCount, practiceCount) == Some(4.0)
  {
    if quizScore == Some(10.0) {
      assert IsTenths(4.0) by { assert (4.0 * 10.0).Floor == 40; }
      RoundTenthsOfTenths(4.0);
    }
  }

  /** The three figures of a course for one learner: quiz score, practice score and total. */
  datatype CourseScores = CourseScores(quizScore: Option<real>, practiceScore: Option<real>, total: Option<real>)

  /** No assessment among `ids` has an attempt by `student`. */
  ghost predicate NoneAttempted(ids: seq<string>, subs: seq<Submission>, student: string)
  {
    forall x :: x in ids ==> !HasAttempt(subs, student, x, false)
  }

  lemma NoBestIffNoneAttempted(ids: seq<string>, subs: seq<Submission>, student: string)
    ensures BestPercentages(ids, subs, student) == [] <==> NoneAttempted(ids, subs, student)
  {
    var done := Attempted(ids, subs, student, false);
    assert done != [] ==> done[0] in ids && HasAttempt(subs, student, done[0], false);
    if !NoneAttempted(ids, subs, student) {
      var x :| x in ids && HasAttempt(subs, student, x, false);
      assert x in done;
    }
  }

  /**
   * A learner's figures in a course with the given quiz and practice ids: each kind's score from
   * the best attempts, and the total from the two scores weighted by which kinds exist.
   */
  function ScoresFor(quizIds: seq<string>, practiceIds: seq<string>, quizSubs: seq<Submission>,
                     practiceSubs: seq<Submission>, student: string): CourseScores
  {
    Assemble(BestPercentages(quizIds, quizSubs, student), BestPercentages(practiceIds, practiceSubs, student),
             |quizIds|, |practiceIds|)
  }

  /**
   * A kind's score is unknown exactly when none of its assessments was attempted; the total is
   * unknown exactly when the course has neither kind; with one kind only, the total is that kind's
   * score (0 when unattempted); with percentages in range every figure is on the 0–10 scale.
   */
  lemma ScoresForFacts(quizIds: seq<string>, practiceIds: seq<string>, quizSubs: seq<Submission>,
                       practiceSubs: seq<Submission>, student: string)
    ensures var r := ScoresFor(quizIds, practiceIds, quizSubs, practiceSubs, student);
      (r.quizScore.None? <==> NoneAttempted(quizIds, quizSubs, student)) &&
      (r.practiceScore.None? <==> NoneAttempted(practiceIds, practiceSubs, student)) &&
      (r.total.None? <==> quizIds == [] && practiceIds == []) &&
      (practiceIds == [] && quizIds != [] ==> r.total == Some(r.quizScore.GetOr(0.0))) &&
      (quizIds == [] && practiceIds != [] ==> r.total == Some(r.practiceScore.GetOr(0.0)))
    ensures var r := ScoresFor(quizIds, practiceIds, quizSubs, practiceSubs, student);
      (forall i :: 0 <= i < |quizSubs| ==> 0.0 <= quizSubs[i].percentage <= 100.0) &&
      (forall i :: 0 <= i < |practiceSubs| ==> 0.0 <= practiceSubs[i].percentage <= 100.0) ==>
        OptBetween(r.quizScore, 0.0, 10.0) && OptBetween(r.practiceScore, 0.0, 10.0) &&
        OptBetween(r.total, 0.0, 10.0)
  {
    var qb := BestPercentages(quizIds, quizSubs, student);
    var pb := BestPercentages(practiceIds, practiceSubs, student);
    NoBestIffNoneAttempted(quizIds, quizSubs, student);
    NoBestIffNoneAttempted(practiceIds, practiceSubs, student);
    AssembleFacts(qb, pb, |quizIds|, |practiceIds|);
    if (forall i :: 0 <= i < |quizSubs| ==> 0.0 <= quizSubs[i].percentage <= 100.0) &&
       (forall i :: 0 <= i < |practiceSubs| ==> 0.0 <= practiceSubs[i].percentage <= 100.0) {
      BestPercentagesBetween(quizIds, quizSubs, student);
      BestPercentagesBetween(practiceIds, practiceSubs, student);
    }
  }

  function Assemble(quizBest: seq<real>, practiceBest: seq<real>, quizCount: nat, practiceCount: nat): CourseScores
  {
    var q := KindScore(quizBest);
    var p := KindScore(practiceBest);
    CourseScores(q, p, CourseTotal(q, p, quizCount, practiceCount))
  }

  lemma AssembleFacts(quizBest: seq<real>, practiceBest: seq<real>, quizCount: nat, practiceCount: nat)
    ensures var r := Assemble(quizBest, practiceBest, quizCount, practiceCount);
      (r.quizScore.None? <==> quizBest == []) &&
      (r.practiceScore.None? <==> practiceBest == []) &&
      (r.total.None? <==> quizCount == 0 && practiceCount == 0) &&
      (practiceCount == 0 && quizCount > 0 ==> r.total == Some(r.quizScore.GetOr(0.0))) &&
      (quizCount == 0 && practiceCount > 0 ==> r.total == Some(r.practiceScore.GetOr(0.0)))
    ensures var r := Assemble(quizBest, practiceBest, quizCount, practiceCount);
      AllBetween(quizBest, 0.0, 100.0) && AllBetween(practiceBest, 0.0, 100.0) ==>
        OptBetween(r.quizScore, 0.0, 10.0) && OptBetween(r.practiceScore, 0.0, 10.0) &&
        OptBetween(r.total, 0.0, 10.0)
  {
    var q := KindScore(quizBest);
    var p := KindScore(practiceBest);
    if practiceCount == 0 && quizCount > 0 {
      QuizOnlyTotal(quizBest, quizCount, p);
    } else if quizCount == 0 && practiceCount > 0 {
      PracticeOnlyTotal(practiceBest, practiceCount, q);
    }
  }
}
