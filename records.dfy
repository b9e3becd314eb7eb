/**
 * Records shared by the services: store identifiers, courses, enrolments and assessments,
 * as the persistence layer hands them over (absent fields are `None`).
 */
module Records {
  import opened Wrappers
  import opened BestAttempt

  predicate IsHexDigit(c: char)
  {
    '0' <= c <= '9' || 'a' <= c <= 'f' || 'A' <= c <= 'F'
  }

  /**
   * The store's identifier check on a string: 24 hexadecimal digits, or any 12-character
   * string (read as 12 raw bytes).
   */
  predicate IsObjectId(s: string)
  {
    |s| == 12 || (|s| == 24 && forall i :: 0 <= i < |s| ==> IsHexDigit(s[i]))
  }

  datatype CourseStatus = Active | Archived
  datatype Visibility = Public | Private

  /** A course document; optional fields the schema defaults are `None` when absent. */
  datatype Course = Course(
    id: string,
    code: Option<string>,
    name: Option<string>,
    ownerId: Option<string>,
    status: CourseStatus,
    visibility: Option<Visibility>,
    credits: Option<int>,
    enrolled: Option<int>,
    capacity: Option<int>,
    instructor: Option<string>,
    schedule: Option<string>,
    room: Option<string>)

  /** JavaScript `x || d` on an optional string: the empty string falls back too. */
  function OrElse(x: Option<string>, d: string): (r: string)
    ensures x.Some? && x.value != [] ==> r == x.value
    ensures x.None? || x.value == [] ==> r == d
  {
    if x.Some? && x.value != [] then x.value else d
  }

  /** Credits counted for a course: `credits || 3`, so absent and 0 both count 3. */
  function CreditsOf(c: Course): (r: int)
    ensures r != 0
    ensures c.credits.None? || c.credits == Some(0) ==> r == 3
    ensures c.credits.Some? && c.credits.value != 0 ==> r == c.credits.value
  {
    match c.credits
    case None => 3
    case Some(n) => if n == 0 then 3 else n
  }

  datatype EnrolStatus = Pending | Approved | Rejected

  /** An enrolment row: a (user, course) pair with its optional status and section. */
  datatype Enrolment = Enrolment(userId: string, courseId: string, status: Option<EnrolStatus>, sectionId: Option<string>)

  /** `findOne({ userId, courseId })`: the first enrolment of the pair. */
  function FindEnrolment(enrolments: seq<Enrolment>, userId: string, courseId: string): (r: Option<nat>)
    ensures r.None? <==> forall i :: 0 <= i < |enrolments| ==> !(enrolments[i].userId == userId && enrolments[i].courseId == courseId)
    ensures r.Some? ==> r.value < |enrolments| && enrolments[r.value].userId == userId && enrolments[r.value].courseId == courseId
    ensures r.Some? ==> forall j :: 0 <= j < r.value ==> !(enrolments[j].userId == userId && enrolments[j].courseId == courseId)
  {
    if enrolments == [] then None
    else if enrolments[0].userId == userId && enrolments[0].courseId == courseId then Some(0)
    else match FindEnrolment(enrolments[1..], userId, courseId)
      case None => None
      case Some(k) => Some(k + 1)
  }

  /** `$inc: { enrolled: n }` on the course; an absent counter counts from 0. */
  function Bump(courses: map<string, Course>, courseId: string, n: int): map<string, Course>
    requires courseId in courses
  {
    courses[courseId := courses[courseId].(enrolled := Some(courses[courseId].enrolled.GetOr(0) + n))]
  }

  /** Only the course's counter moves, by exactly `n`. */
  lemma BumpFacts(courses: map<string, Course>, courseId: string, n: int)
    requires courseId in courses
    ensures var b := Bump(courses, courseId, n);
      b.Keys == courses.Keys && b[courseId].enrolled == Some(courses[courseId].enrolled.GetOr(0) + n) &&
      b[courseId] == courses[courseId].(enrolled := b[courseId].enrolled) &&
      forall k :: k in courses && k != courseId ==> b[k] == courses[k]
  {
  }

  /** A quiz or practice exercise, reduced to its id and the course it belongs to. */
  datatype Assessment = Assessment(id: string, courseId: string)

  /** The ids of the course's assessments, in store order. */
  function IdsOf(xs: seq<Assessment>, courseId: string): (r: seq<string>)
    ensures |r| <= |xs|
    ensures forall x :: x in r <==> exists i :: 0 <= i < |xs| && xs[i].courseId == courseId && xs[i].id == x
  {
    if xs == [] then []
    else
      var rest := IdsOf(xs[1..], courseId);
      assert forall i :: 0 < i < |xs| ==> xs[i] == xs[1..][i - 1];
      if xs[0].courseId == courseId then [xs[0].id] + rest else rest
  }

  /** The collections the services read: courses keyed by id, enrolments, exercises and attempts. */
  datatype Store = Store(
    courses: map<string, Course>,
    enrolments: seq<Enrolment>,
    quizzes: seq<Assessment>,
    practices: seq<Assessment>,
    quizSubmissions: seq<Submission>,
    practiceSubmissions: seq<Submission>)

  /** Every stored attempt has a percentage in [0, 100], as the grading services compute them. */
  predicate PercentagesInRange(st: Store)
  {
    (forall i :: 0 <= i < |st.quizSubmissions| ==> 0.0 <= st.quizSubmissions[i].percentage <= 100.0) &&
    (forall i :: 0 <= i < |st.practiceSubmissions| ==> 0.0 <= st.practiceSubmissions[i].percentage <= 100.0)
  }

  /** The enrolments the learner's reports visit: their approved ones whose course exists. */
  predicate Visited(st: Store, userId: string, e: Enrolment)
  {
    e.userId == userId && e.status == Some(Approved) && e.courseId in st.courses
  }

  /** The visited enrolments, in order. */
  function Visits(st: Store, userId: string, rows: seq<Enrolment>): (r: seq<Enrolment>)
    ensures forall e :: e in r <==> e in rows && Visited(st, userId, e)
    ensures forall k :: 0 <= k < |r| ==> Visited(st, userId, r[k])
    ensures |r| <= |rows|
  {
    if rows == [] then []
    else
      var e := rows[|rows| - 1];
      Visits(st, userId, rows[..|rows| - 1]) + (if Visited(st, userId, e) then [e] else [])
  }

  /** One more row either extends the visited list by that row or leaves it as is. */
  lemma VisitsStep(st: Store, userId: string, rows: seq<Enrolment>, i: nat)
    requires i < |rows|
    ensures Visits(st, userId, rows[..i + 1]) ==
      Visits(st, userId, rows[..i]) + (if Visited(st, userId, rows[i]) then [rows[i]] else [])
  {
    assert rows[..i + 1][..i] == rows[..i];
  }
}
