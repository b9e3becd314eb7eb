/**
 * Best-attempt selection and "distinct attempted" counting over a learner's submissions.
 * The store's aggregation queries are replaced by functions over the list of submissions.
 */
module BestAttempt {
  import opened Wrappers
  import opened Numeric

  /** One graded attempt (a quiz or a practice submission), reduced to what the engine reads. */
  datatype Submission = Submission(
    assessmentId: string,
    studentId: string,
    percentage: real,
    passed: bool,
    submittedAt: Option<int>)

  predicate Matches(s: Submission, student: string, id: string)
  {
    s.studentId == student && s.assessmentId == id
  }

  /** The student has an attempt at `id` (a passed one when `passedOnly`). */
  ghost predicate HasAttempt(subs: seq<Submission>, student: string, id: string, passedOnly: bool)
  {
    exists i :: 0 <= i < |subs| && Matches(subs[i], student, id) && (subs[i].passed || !passedOnly)
  }

  predicate Distinct(xs: seq<string>)
  {
    forall i, j :: 0 <= i < j < |xs| ==> xs[i] != xs[j]
  }

  /**
   * The `$sort: {percentage: -1}` + `$group: {best: {$first: '$percentage'}}` stage for one id:
   * the highest percentage among the student's attempts at `id`, None when there is none.
   */
  function Best(subs: seq<Submission>, student: string, id: string): (r: Option<real>)
    ensures r.None? <==> !HasAttempt(subs, student, id, false)
    ensures r.Some? ==> exists i :: 0 <= i < |subs| && Matches(subs[i], student, id) && subs[i].percentage == r.value
    ensures r.Some? ==> forall i :: 0 <= i < |subs| && Matches(subs[i], student, id) ==> subs[i].percentage <= r.value
  {
    if subs == [] then None
    else
      var rest := Best(subs[1..], student, id);
      assert forall i :: 1 <= i < |subs| ==> subs[i] == subs[1..][i - 1];
      if !Matches(subs[0], student, id) then
        assert HasAttempt(subs[1..], student, id, false) ==> HasAttempt(subs, student, id, false) by {
          if HasAttempt(subs[1..], student, id, false) {
            var i :| 0 <= i < |subs[1..]| && Matches(subs[1..][i], student, id);
            assert Matches(subs[i + 1], student, id);
          }
        }
        rest
      else
        assert Matches(subs[0], student, id);
        match rest
        case None => Some(subs[0].percentage)
        case Some(p) =>
          var i :| 0 <= i < |subs[1..]| && Matches(subs[1..][i], student, id) && subs[1..][i].percentage == p;
          assert Matches(subs[i + 1], student, id) && subs[i + 1].percentage == p;
          Some(if subs[0].percentage >= p then subs[0].percentage else p)
  }

  /** Best attempts stay within the range of the stored percentages. */
  lemma BestBetween(subs: seq<Submission>, student: string, id: string)
    requires forall i :: 0 <= i < |subs| ==> 0.0 <= subs[i].percentage <= 100.0
    ensures Best(subs, student, id).Some? ==> 0.0 <= Best(subs, student, id).value <= 100.0
  {
  }

  /**
   * `distinct(idField, {idField: {$in: ids}, studentId, [passed: true]})`: the ids of `ids` the student
   * has attempted (passed, when `passedOnly`), each listed once.
   */
  function Attempted(ids: seq<string>, subs: seq<Submission>, student: string, passedOnly: bool): (r: seq<string>)
    ensures forall x :: x in r <==> x in ids && HasAttempt(subs, student, x, passedOnly)
    ensures Distinct(r)
    ensures |r| <= |ids|
  {
    if ids == [] then []
    else
      var rest := Attempted(ids[1..], subs, student, passedOnly);
      if ids[0] in ids[1..] || !AttemptedOne(subs, student, ids[0], passedOnly) then
        assert forall x :: x in ids <==> x == ids[0] || x in ids[1..];
        rest
      else
        [ids[0]] + rest
  }

  /** Executable form of HasAttempt. */
  predicate AttemptedOne(subs: seq<Submission>, student: string, id: string, passedOnly: bool)
    ensures AttemptedOne(subs, student, id, passedOnly) <==> HasAttempt(subs, student, id, passedOnly)
  {
    exists i :: 0 <= i < |subs| && Matches(subs[i], student, id) && (subs[i].passed || !passedOnly)
  }

  /** Passed ids are among the attempted ones, so there are never more of them. */
  lemma {:induction false} PassedAtMostAttempted(ids: seq<string>, subs: seq<Submission>, student: string)
    ensures |Attempted(ids, subs, student, true)| <= |Attempted(ids, subs, student, false)|
  {
    if ids != [] {
      PassedAtMostAttempted(ids[1..], subs, student);
    }
  }

  /** An id nobody attempted can be added to the list without changing what is attempted. */
  lemma {:induction false} UnattemptedIgnored(ids: seq<string>, x: string, subs: seq<Submission>, student: string, passedOnly: bool)
    requires !HasAttempt(subs, student, x, passedOnly)
    ensures Attempted(ids + [x], subs, student, passedOnly) == Attempted(ids, subs, student, passedOnly)
  {
    if ids != [] {
      assert (ids + [x])[1..] == ids[1..] + [x];
      UnattemptedIgnored(ids[1..], x, subs, student, passedOnly);
    }
  }

  /**
   * The list of best percentages the aggregation returns: one per distinct attempted id, in the
   * order Attempted lists them (the order is irrelevant to every consumer, which only averages).
   */
  function BestPercentages(ids: seq<string>, subs: seq<Submission>, student: string): (r: seq<real>)
    ensures |r| == |Attempted(ids, subs, student, false)|
    ensures forall k :: 0 <= k < |r| ==> Best(subs, student, Attempted(ids, subs, student, false)[k]) == Some(r[k])
  {
    var done := Attempted(ids, subs, student, false);
    seq(|done|, k requires 0 <= k < |done| => Best(subs, student, done[k]).value)
  }

  /** With stored percentages in [0, 100], so are all best percentages. */
  lemma BestPercentagesBetween(ids: seq<string>, subs: seq<Submission>, student: string)
    requires forall i :: 0 <= i < |subs| ==> 0.0 <= subs[i].percentage <= 100.0
    ensures AllBetween(BestPercentages(ids, subs, student), 0.0, 100.0)
  {
    var r := BestPercentages(ids, subs, student);
    var done := Attempted(ids, subs, student, false);
    forall k | 0 <= k < |r| ensures 0.0 <= r[k] <= 100.0 {
      BestBetween(subs, student, done[k]);
    }
  }
}
