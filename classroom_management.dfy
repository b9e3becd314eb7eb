/**
 * The classroom-management handlers: the owner-or-admin guard, a course's gradebook, adding
 * students by email (one at a time or in bulk) and removing a student, with the course's
 * `enrolled` counter kept in step.
 */
module ClassroomManagement {
  import opened Wrappers
  import opened Text
  import opened GradeTable
  import opened ScoreAggregator
  import opened Records
  import opened Users
  import GradeService

  /** The failures the handlers answer with, and their HTTP statuses. */
  datatype Failure = BadRequest | NotFound | Forbidden | Conflict {
    function Status(): int
    {
      match this
      case BadRequest => 400
      case NotFound => 404
      case Forbidden => 403
      case Conflict => 409
    }
  }

  /** The controller's own copy of `calculateGrade`. */
  function CalculateGrade(score: Option<real>): string
  {
    if score.None? then "-"
    else if score.value >= 9.0 then "A+"
    else if score.value >= 8.5 then "A"
    else if score.value >= 8.0 then "B+"
    else if score.value >= 7.0 then "B"
    else if score.value >= 6.5 then "C+"
    else if score.value >= 5.5 then "C"
    else if score.value >= 5.0 then "D+"
    else if score.value >= 4.0 then "D"
    else "F"
  }

  /** The copy agrees with the grade service's table on every input. */
  lemma CalculateGradeAgrees(score: Option<real>)
    ensures CalculateGrade(score) == LetterGrade(score)
  {
  }

  // ---------------------------------------------------------------- the guard

  /** `course.ownerId?.toString() === currentUserId`: an owner is set and the caller is that owner. */
  predicate IsOwner(c: Course, caller: Option<string>)
  {
    c.ownerId.Some? && caller == c.ownerId
  }

  /** The caller resolves to a stored user whose role is admin. */
  predicate IsAdminCaller(users: seq<User>, caller: Option<string>)
  {
    caller.Some? && FindById(users, caller.value).Some? && users[FindById(users, caller.value).value].role == Admin
  }

  predicate CanManage(c: Course, caller: Option<string>, users: seq<User>)
  {
    IsOwner(c, caller) || IsAdminCaller(users, caller)
  }

  /** The shared prelude: a well-formed course id, an existing course, then owner or admin. */
  function Guard(courses: map<string, Course>, users: seq<User>, courseId: string, caller: Option<string>): Option<Failure>
  {
    if !IsObjectId(courseId) then Some(BadRequest)
    else if courseId !in courses then Some(NotFound)
    else if !CanManage(courses[courseId], caller, users) then Some(Forbidden)
    else None
  }

  /** The guard lets a request through exactly for the owner or an admin of an existing course; anyone else gets 403. */
  lemma GuardFacts(courses: map<string, Course>, users: seq<User>, courseId: string, caller: Option<string>)
    ensures Guard(courses, users, courseId, caller).None? <==>
      IsObjectId(courseId) && courseId in courses && CanManage(courses[courseId], caller, users)
    ensures (IsObjectId(courseId) && courseId in courses && !IsOwner(courses[courseId], caller) &&
             !IsAdminCaller(users, caller)) ==> Guard(courses, users, courseId, caller) == Some(Forbidden)
    ensures Guard(courses, users, courseId, caller) == Some(Forbidden) ==> Forbidden.Status() == 403
  {
  }

  /** The guard as the handlers run it: checks in order, lookups one at a time. */
  method CheckAccess(courses: map<string, Course>, users: seq<User>, courseId: string, caller: Option<string>)
    returns (f: Option<Failure>)
    ensures f == Guard(courses, users, courseId, caller)
  {
    if !IsObjectId(courseId) {
      return Some(BadRequest);
    }
    if courseId !in courses {
      return Some(NotFound);
    }
    var course := courses[courseId];
    var isOwner := course.ownerId.Some? && caller == course.ownerId;
    var isAdmin := false;
    if caller.Some? {
      var found := FindById(users, caller.value);
      isAdmin := found.Some? && users[found.value].role == Admin;
    }
    if !isOwner && !isAdmin {
      return Some(Forbidden);
    }
    f := None;
  }

  // ---------------------------------------------------------------- the gradebook

  /** One gradebook line. */
  datatype StudentGrade = StudentGrade(
    userId: string,
    email: string,
    fullName: string,
    avatarUrl: Option<string>,
    quizScore: Option<real>,
    practiceScore: Option<real>,
    total: Option<real>,
    grade: string)

  /** The gradebook's rows: approved enrolments of the course whose student resolves. */
  predicate OnRoll(users: seq<User>, courseId: string, e: Enrolment)
  {
    e.courseId == courseId && e.status == Some(Approved) && FindById(users, e.userId).Some?
  }

  function Roll(users: seq<User>, courseId: string, rows: seq<Enrolment>): (r: seq<Enrolment>)
    ensures forall e :: e in r <==> e in rows && OnRoll(users, courseId, e)
    ensures forall k :: 0 <= k < |r| ==> OnRoll(users, courseId, r[k])
    ensures |r| <= |rows|
  {
    if rows == [] then []
    else
      var e := rows[|rows| - 1];
      Roll(users, courseId, rows[..|rows| - 1]) + (if OnRoll(users, courseId, e) then [e] else [])
  }

  lemma RollStep(users: seq<User>, courseId: string, rows: seq<Enrolment>, i: nat)
    requires i < |rows|
    ensures Roll(users, courseId, rows[..i + 1]) ==
      Roll(users, courseId, rows[..i]) + (if OnRoll(users, courseId, rows[i]) then [rows[i]] else [])
  {
    assert rows[..i + 1][..i] == rows[..i];
  }

  /** The student's figures in the course, by the same rule as the grade sheet. */
  function CourseScoresOf(st: Store, courseId: string, studentId: string): CourseScores
  {
    ScoresFor(IdsOf(st.quizzes, courseId), IdsOf(st.practices, courseId), st.quizSubmissions, st.practiceSubmissions, studentId)
  }

  function RowOf(st: Store, users: seq<User>, courseId: string, e: Enrolment): StudentGrade
    requires FindById(users, e.userId).Some?
  {
    var u := users[FindById(users, e.userId).value];
    var s := CourseScoresOf(st, courseId, e.userId);
    StudentGrade(e.userId, u.email, OrElse(u.fullName, "N/A"),
                 if u.profile.Some? && Filled(u.profile.value.avatarUrl) then u.profile.value.avatarUrl else None,
                 s.quizScore, s.practiceScore, s.total, CalculateGrade(s.total))
  }

  /**
   * A line's total is unknown exactly when the course has neither quizzes nor practices; its
   * figures and grade are those the learner's own grade sheet shows for the course; with stored
   * percentages in range the figures are on the 0–10 scale.
   */
  lemma RowFacts(st: Store, users: seq<User>, courseId: string, e: Enrolment)
    requires FindById(users, e.userId).Some?
    ensures var g := RowOf(st, users, courseId, e);
      (g.total.None? <==> IdsOf(st.quizzes, courseId) == [] && IdsOf(st.practices, courseId) == []) &&
      g.grade == LetterGrade(g.total) && g.userId == e.userId && g.fullName != []
    ensures courseId in st.courses && st.courses[courseId].id == courseId ==>
      var g := RowOf(st, users, courseId, e);
      var h := GradeService.GradeOf(st, e.userId, st.courses[courseId]);
      g.quizScore == h.quizScore && g.practiceScore == h.practiceScore && g.total == h.total && g.grade == h.grade
    ensures PercentagesInRange(st) ==>
      var g := RowOf(st, users, courseId, e);
      OptBetween(g.quizScore, 0.0, 10.0) && OptBetween(g.practiceScore, 0.0, 10.0) && OptBetween(g.total, 0.0, 10.0)
  {
    ScoresForFacts(IdsOf(st.quizzes, courseId), IdsOf(st.practices, courseId), st.quizSubmissions,
                   st.practiceSubmissions, e.userId);
    CalculateGradeAgrees(CourseScoresOf(st, courseId, e.userId).total);
  }

  /** The gradebook lines of `rows`, in order. */
  function Gradebook(st: Store, users: seq<User>, courseId: string, rows: seq<Enrolment>): (r: seq<StudentGrade>)
    ensures |r| == |Roll(users, courseId, rows)|
  {
    var roll := Roll(users, courseId, rows);
    seq(|roll|, k requires 0 <= k < |roll| => RowOf(st, users, courseId, roll[k]))
  }

  lemma GradebookStep(st: Store, users: seq<User>, courseId: string, rows: seq<Enrolment>, i: nat)
    requires i < |rows|
    ensures Gradebook(st, users, courseId, rows[..i + 1]) ==
      Gradebook(st, users, courseId, rows[..i]) +
      (if OnRoll(users, courseId, rows[i]) then [RowOf(st, users, courseId, rows[i])] else [])
  {
    RollStep(users, courseId, rows, i);
  }

  /** Every line comes from an approved enrolment of the course whose student exists. */
  lemma GradebookVisitsRoll(st: Store, users: seq<User>, courseId: string, rows: seq<Enrolment>, k: nat)
    requires k < |Gradebook(st, users, courseId, rows)|
    ensures var e := Roll(users, courseId, rows)[k];
      e in rows && e.courseId == courseId && e.status == Some(Approved) &&
      FindById(users, e.userId).Some? && Gradebook(st, users, courseId, rows)[k] == RowOf(st, users, courseId, e)
  {
  }

  /** `getStudentGradesByCourse`. */
  function StudentGrades(st: Store, users: seq<User>, courseId: string, caller: Option<string>): Result<seq<StudentGrade>, Failure>
  {
    match Guard(st.courses, users, courseId, caller)
    case Some(f) => Err(f)
    case None => Ok(Gradebook(st, users, courseId, st.enrolments))
  }

  method GetStudentGradesByCourse(st: Store, users: seq<User>, courseId: string, caller: Option<string>)
    returns (r: Result<seq<StudentGrade>, Failure>)
    ensures r == StudentGrades(st, users, courseId, caller)
    ensures r.Err? <==> Guard(st.courses, users, courseId, caller).Some?
  {
    var denied := CheckAccess(st.courses, users, courseId, caller);
    if denied.Some? {
      return Err(denied.value);
    }
    var rows := st.enrolments;
    var grades: seq<StudentGrade> := [];
    for i := 0 to |rows|
      invariant grades == Gradebook(st, users, courseId, rows[..i])
    {
      var e := rows[i];
      GradebookStep(st, users, courseId, rows, i);
      if e.courseId == courseId && e.status == Some(Approved) {
        var found := FindById(users, e.userId);
        if found.Some? {
          grades := grades + [RowOf(st, users, courseId, e)];
        }
      }
    }
    assert rows[..|rows|] == rows;
    r := Ok(grades);
  }

  // ---------------------------------------------------------------- enrolment changes

  /** What a handler answers, with the courses and enrolments it leaves. */
  datatype Change<T> = Change(result: Result<T, Failure>, courses: map<string, Course>, enrolments: seq<Enrolment>)

  /** `email.toLowerCase().trim()`. */
  function NormalizeEmail(raw: string): string
  {
    Trim(ToLower(raw))
  }

  function ApprovedEnrolment(userId: string, courseId: string): Enrolment
  {
    Enrolment(userId, courseId, Some(Approved), None)
  }

  /** `addStudentByEmail`. */
  function AddByEmail(courses: map<string, Course>, enrolments: seq<Enrolment>, users: seq<User>,
                      courseId: string, email: Option<string>, caller: Option<string>): Change<Enrolment>
    requires Stored(users)
  {
    if !Filled(email) then Change(Err(BadRequest), courses, enrolments)
    else match Guard(courses, users, courseId, caller)
      case Some(f) => Change(Err(f), courses, enrolments)
      case None =>
        match FindByEmail(users, NormalizeEmail(email.value))
        case None => Change(Err(NotFound), courses, enrolments)
        case Some(i) =>
          var studentId := users[i].id.value;
          if FindEnrolment(enrolments, studentId, courseId).Some? then Change(Err(Conflict), courses, enrolments)
          else
            var e := ApprovedEnrolment(studentId, courseId);
            Change(Ok(e), Bump(courses, courseId, 1), enrolments + [e])
  }

  /**
   * A failure changes nothing; an existing (student, course) enrolment is a 409; a success
   * appends one approved enrolment of the student found by normalised email and adds 1 to the
   * course's counter, and afterwards the pair is enrolled.
   */
  lemma AddByEmailFacts(courses: map<string, Course>, enrolments: seq<Enrolment>, users: seq<User>,
                        courseId: string, email: Option<string>, caller: Option<string>)
    requires Stored(users)
    ensures var c := AddByEmail(courses, enrolments, users, courseId, email, caller);
      (c.result.Err? ==> c.courses == courses && c.enrolments == enrolments) &&
      (!Filled(email) ==> c.result == Err(BadRequest)) &&
      (Filled(email) && Guard(courses, users, courseId, caller).None? &&
       FindByEmail(users, NormalizeEmail(email.value)).Some? &&
       FindEnrolment(enrolments, users[FindByEmail(users, NormalizeEmail(email.value)).value].id.value, courseId).Some?
       ==> c.result == Err(Conflict))
    ensures var c := AddByEmail(courses, enrolments, users, courseId, email, caller);
      c.result.Ok? ==>
        var i := FindByEmail(users, NormalizeEmail(email.value)).value;
        var e := c.result.value;
        courseId in courses && CanManage(courses[courseId], caller, users) &&
        e == ApprovedEnrolment(users[i].id.value, courseId) && users[i].email == NormalizeEmail(email.value) &&
        FindEnrolment(enrolments, e.userId, courseId).None? &&
        c.enrolments == enrolments + [e] && FindEnrolment(c.enrolments, e.userId, courseId).Some? &&
        c.courses == Bump(courses, courseId, 1)
  {
    var c := AddByEmail(courses, enrolments, users, courseId, email, caller);
    if c.result.Ok? {
      var e := c.result.value;
      assert c.enrolments[|enrolments|] == e;
    }
  }

  /** The outcome buckets of a bulk add. */
  datatype BulkResults = BulkResults(success: seq<string>, notFound: seq<string>, alreadyEnrolled: seq<string>, failed: seq<string>)

  datatype BulkState = BulkState(results: BulkResults, enrolments: seq<Enrolment>)

  /**
   * One email of the batch: skipped when empty after normalising, otherwise put in one bucket.
   * `throws` says that a store call of the `try` block throws for this entry; the catch files the
   * email under `failed`, and nothing was written, since the insertion is the block's only write.
   */
  function BulkStep(users: seq<User>, courseId: string, s: BulkState, raw: Option<string>, throws: bool): BulkState
    requires Stored(users)
  {
    if raw.None? || NormalizeEmail(raw.value) == [] then s
    else if throws then s.(results := s.results.(failed := s.results.failed + [NormalizeEmail(raw.value)]))
    else
      var email := NormalizeEmail(raw.value);
      match FindByEmail(users, email)
      case None => s.(results := s.results.(notFound := s.results.notFound + [email]))
      case Some(i) =>
        var studentId := users[i].id.value;
        if FindEnrolment(s.enrolments, studentId, courseId).Some? then
          s.(results := s.results.(alreadyEnrolled := s.results.alreadyEnrolled + [email]))
        else
          BulkState(s.results.(success := s.results.success + [email]), s.enrolments + [ApprovedEnrolment(studentId, courseId)])
  }

  /**
   * The batch processed in order, each email seeing the enrolments made before it; `failing`
   * holds the positions of the batch at which a store call throws.
   */
  function BulkRun(users: seq<User>, courseId: string, enrolments: seq<Enrolment>, emails: seq<Option<string>>,
                   failing: set<nat>): BulkState
    requires Stored(users)
  {
    if emails == [] then BulkState(BulkResults([], [], [], []), enrolments)
    else
      BulkStep(users, courseId, BulkRun(users, courseId, enrolments, emails[..|emails| - 1], failing),
               emails[|emails| - 1], |emails| - 1 in failing)
  }

  lemma BulkRunStep(users: seq<User>, courseId: string, enrolments: seq<Enrolment>, emails: seq<Option<string>>,
                    failing: set<nat>, i: nat)
    requires Stored(users) && i < |emails|
    ensures BulkRun(users, courseId, enrolments, emails[..i + 1], failing) ==
      BulkStep(users, courseId, BulkRun(users, courseId, enrolments, emails[..i], failing), emails[i], i in failing)
  {
    assert emails[..i + 1][..i] == emails[..i];
  }

  /** The non-empty normalised email of one entry, if any. */
  function NormalisedOne(raw: Option<string>): seq<string>
  {
    if raw.Some? && NormalizeEmail(raw.value) != [] then [NormalizeEmail(raw.value)] else []
  }

  /** The batch's non-empty normalised emails, in order. */
  function Normalised(emails: seq<Option<string>>): seq<string>
  {
    if emails == [] then [] else Normalised(emails[..|emails| - 1]) + NormalisedOne(emails[|emails| - 1])
  }

  /** The non-empty normalised emails at the failing positions, in order. */
  function FailedAt(emails: seq<Option<string>>, failing: set<nat>): seq<string>
  {
    if emails == [] then []
    else
      FailedAt(emails[..|emails| - 1], failing) +
      (if |emails| - 1 in failing then NormalisedOne(emails[|emails| - 1]) else [])
  }

  /** With no failing position in the batch, nothing is filed as failed. */
  lemma {:induction false} FailedAtNone(emails: seq<Option<string>>, failing: set<nat>)
    requires forall k :: 0 <= k < |emails| ==> k !in failing
    ensures FailedAt(emails, failing) == []
  {
    if emails != [] {
      FailedAtNone(emails[..|emails| - 1], failing);
    }
  }

  /** The four buckets as one multiset. */
  function Filed(r: BulkResults): multiset<string>
  {
    multiset(r.success) + multiset(r.notFound) + multiset(r.alreadyEnrolled) + multiset(r.failed)
  }

  /** Every new enrolment is an approved one of the course. */
  predicate NewRowsApproved(before: seq<Enrolment>, after: seq<Enrolment>, courseId: string)
  {
    |before| <= |after| && after[..|before|] == before &&
    forall k :: |before| <= k < |after| ==> after[k].courseId == courseId && after[k].status == Some(Approved)
  }

  /**
   * One entry files its normalised email once, under `failed` exactly when a store call throws,
   * and appends at most the one enrolment of a success.
   */
  lemma BulkStepFacts(users: seq<User>, courseId: string, s: BulkState, raw: Option<string>, throws: bool)
    requires Stored(users)
    ensures var t := BulkStep(users, courseId, s, raw, throws);
      t.results.failed == s.results.failed + (if throws then NormalisedOne(raw) else []) &&
      Filed(t.results) == Filed(s.results) + multiset(NormalisedOne(raw)) &&
      |t.enrolments| - |s.enrolments| == |t.results.success| - |s.results.success| &&
      NewRowsApproved(s.enrolments, t.enrolments, courseId)
  {
    var t := BulkStep(users, courseId, s, raw, throws);
    var r := s.results;
    if raw.None? || NormalizeEmail(raw.value) == [] {
      assert t == s && NormalisedOne(raw) == [];
      assert r.failed + [] == r.failed;
      NoNewRows(s.enrolments, courseId);
    } else if throws {
      var email := NormalizeEmail(raw.value);
      assert NormalisedOne(raw) == [email];
      assert t == BulkState(r.(failed := r.failed + [email]), s.enrolments);
      assert multiset(r.failed + [email]) == multiset(r.failed) + multiset{email};
      NoNewRows(s.enrolments, courseId);
    } else {
      var email := NormalizeEmail(raw.value);
      assert NormalisedOne(raw) == [email];
      assert r.failed + [] == r.failed;
      var found := FindByEmail(users, email);
      if found.None? {
        assert t == BulkState(r.(notFound := r.notFound + [email]), s.enrolments);
        assert multiset(r.notFound + [email]) == multiset(r.notFound) + multiset{email};
        NoNewRows(s.enrolments, courseId);
      } else {
        var studentId := users[found.value].id.value;
        if FindEnrolment(s.enrolments, studentId, courseId).Some? {
          assert t == BulkState(r.(alreadyEnrolled := r.alreadyEnrolled + [email]), s.enrolments);
          assert multiset(r.alreadyEnrolled + [email]) == multiset(r.alreadyEnrolled) + multiset{email};
          NoNewRows(s.enrolments, courseId);
        } else {
          var added := ApprovedEnrolment(studentId, courseId);
          assert t == BulkState(r.(success := r.success + [email]), s.enrolments + [added]);
          assert multiset(r.success + [email]) == multiset(r.success) + multiset{email};
          OneNewRow(s.enrolments, added, courseId);
        }
      }
    }
  }

  lemma NoNewRows(rows: seq<Enrolment>, courseId: string)
    ensures NewRowsApproved(rows, rows, courseId)
  {
    assert rows[..|rows|] == rows;
  }

  lemma OneNewRow(rows: seq<Enrolment>, added: Enrolment, courseId: string)
    requires added.courseId == courseId && added.status == Some(Approved)
    ensures NewRowsApproved(rows, rows + [added], courseId)
  {
    assert (rows + [added])[..|rows|] == rows;
  }

  /** Approved additions compose. */
  lemma NewRowsApprovedTrans(a: seq<Enrolment>, b: seq<Enrolment>, c: seq<Enrolment>, courseId: string)
    requires NewRowsApproved(a, b, courseId) && NewRowsApproved(b, c, courseId)
    ensures NewRowsApproved(a, c, courseId)
  {
    assert c[..|a|] == c[..|b|][..|a|];
  }

  /**
   * Every non-empty normalised email lands in exactly one of the four buckets (the buckets
   * together are the batch's emails as a multiset), `failed` holds exactly the emails at the
   * failing positions, and the enrolments grow by one approved enrolment of the course per
   * success, appended after the existing ones.
   */
  lemma {:induction false} BulkPartition(users: seq<User>, courseId: string, enrolments: seq<Enrolment>,
                                         emails: seq<Option<string>>, failing: set<nat>)
    requires Stored(users)
    ensures var s := BulkRun(users, courseId, enrolments, emails, failing);
      s.results.failed == FailedAt(emails, failing) && Filed(s.results) == multiset(Normalised(emails)) &&
      |s.enrolments| == |enrolments| + |s.results.success| &&
      NewRowsApproved(enrolments, s.enrolments, courseId)
  {
    if emails == [] {
      assert enrolments[..|enrolments|] == enrolments;
    } else {
      var n := |emails| - 1;
      var prefix := emails[..n];
      BulkPartition(users, courseId, enrolments, prefix, failing);
      var s := BulkRun(users, courseId, enrolments, prefix, failing);
      BulkStepFacts(users, courseId, s, emails[n], n in failing);
      NewRowsApprovedTrans(enrolments, s.enrolments, BulkStep(users, courseId, s, emails[n], n in failing).enrolments, courseId);
    }
  }

  /** Repeating a found email in the same batch files the repeat under `alreadyEnrolled`. */
  lemma BulkRepeatIsAlreadyEnrolled(users: seq<User>, courseId: string, s: BulkState, raw: Option<string>)
    requires Stored(users)
    requires raw.Some? && NormalizeEmail(raw.value) != [] && FindByEmail(users, NormalizeEmail(raw.value)).Some?
    ensures var t := BulkStep(users, courseId, s, raw, false);
      BulkStep(users, courseId, t, raw, false) ==
        t.(results := t.results.(alreadyEnrolled := t.results.alreadyEnrolled + [NormalizeEmail(raw.value)]))
  {
    var t := BulkStep(users, courseId, s, raw, false);
    var i := FindByEmail(users, NormalizeEmail(raw.value)).value;
    if FindEnrolment(s.enrolments, users[i].id.value, courseId).None? {
      assert t.enrolments[|s.enrolments|] == ApprovedEnrolment(users[i].id.value, courseId);
    }
  }

  /** `addStudentsBulk`: the counter moves once, by the number of successes, and only when that is positive. */
  function AddBulk(courses: map<string, Course>, enrolments: seq<Enrolment>, users: seq<User>,
                   courseId: string, emails: Option<seq<Option<string>>>, caller: Option<string>,
                   failing: set<nat>): Change<BulkResults>
    requires Stored(users)
  {
    if emails.None? || emails.value == [] then Change(Err(BadRequest), courses, enrolments)
    else match Guard(courses, users, courseId, caller)
      case Some(f) => Change(Err(f), courses, enrolments)
      case None =>
        var s := BulkRun(users, courseId, enrolments, emails.value, failing);
        var n := |s.results.success|;
        Change(Ok(s.results), if n > 0 then Bump(courses, courseId, n) else courses, s.enrolments)
  }

  /** A missing or empty list is a 400 before the guard, and a refused request changes nothing. */
  lemma AddBulkRefusals(courses: map<string, Course>, enrolments: seq<Enrolment>, users: seq<User>,
                        courseId: string, emails: Option<seq<Option<string>>>, caller: Option<string>,
                        failing: set<nat>)
    requires Stored(users)
    ensures var c := AddBulk(courses, enrolments, users, courseId, emails, caller, failing);
      (emails.None? || emails.value == [] ==> c.result == Err(BadRequest)) &&
      (c.result.Err? ==> c.courses == courses && c.enrolments == enrolments)
  {
  }

  /**
   * On success the course's counter rises by exactly the number of successes (untouched when
   * there are none), every other course is unchanged, one approved enrolment is appended per
   * success, every email of the batch is filed in exactly one of the four buckets, and `failed`
   * holds exactly the emails whose store calls threw.
   */
  lemma AddBulkSuccess(courses: map<string, Course>, enrolments: seq<Enrolment>, users: seq<User>,
                       courseId: string, emails: Option<seq<Option<string>>>, caller: Option<string>,
                       failing: set<nat>)
    requires Stored(users)
    ensures var c := AddBulk(courses, enrolments, users, courseId, emails, caller, failing);
      c.result.Ok? ==>
        var n := |c.result.value.success|;
        courseId in courses && c.courses.Keys == courses.Keys &&
        (n == 0 ==> c.courses == courses) &&
        (n > 0 ==> c.courses[courseId].enrolled == Some(courses[courseId].enrolled.GetOr(0) + n)) &&
        (forall k :: k in courses && k != courseId ==> c.courses[k] == courses[k]) &&
        |c.enrolments| == |enrolments| + n && NewRowsApproved(enrolments, c.enrolments, courseId) &&
        c.result.value.failed == FailedAt(emails.value, failing) &&
        Filed(c.result.value) == multiset(Normalised(emails.value))
  {
    if emails.Some? && emails.value != [] && Guard(courses, users, courseId, caller).None? {
      var s := BulkRun(users, courseId, enrolments, emails.value, failing);
      var n := |s.results.success|;
      var c := AddBulk(courses, enrolments, users, courseId, emails, caller, failing);
      assert c == Change(Ok(s.results), if n > 0 then Bump(courses, courseId, n) else courses, s.enrolments);
      BulkPartition(users, courseId, enrolments, emails.value, failing);
      assert courseId in courses;
      BumpFacts(courses, courseId, n);
    }
  }

  /** `removeStudent`. */
  function Remove(courses: map<string, Course>, enrolments: seq<Enrolment>, users: seq<User>,
                  courseId: string, userId: string, caller: Option<string>): Change<()>
  {
    if !IsObjectId(courseId) || !IsObjectId(userId) then Change(Err(BadRequest), courses, enrolments)
    else match Guard(courses, users, courseId, caller)
      case Some(f) => Change(Err(f), courses, enrolments)
      case None =>
        match FindEnrolment(enrolments, userId, courseId)
        case None => Change(Err(NotFound), courses, enrolments)
        case Some(i) => Change(Ok(()), Bump(courses, courseId, -1), enrolments[..i] + enrolments[i + 1..])
  }

  /**
   * The counter drops by 1 exactly when an enrolment was deleted: the first one of the
   * (student, course) pair, with every other enrolment kept in order; otherwise nothing changes.
   */
  lemma RemoveFacts(courses: map<string, Course>, enrolments: seq<Enrolment>, users: seq<User>,
                    courseId: string, userId: string, caller: Option<string>)
    ensures var c := Remove(courses, enrolments, users, courseId, userId, caller);
      (c.result.Err? ==> c.courses == courses && c.enrolments == enrolments) &&
      (c.courses != courses ==> c.result.Ok?) &&
      ((!IsObjectId(courseId) || !IsObjectId(userId)) ==> c.result == Err(BadRequest))
    ensures var c := Remove(courses, enrolments, users, courseId, userId, caller);
      c.result.Ok? ==>
        var i := FindEnrolment(enrolments, userId, courseId).value;
        courseId in courses && CanManage(courses[courseId], caller, users) &&
        enrolments[i].userId == userId && enrolments[i].courseId == courseId &&
        |c.enrolments| == |enrolments| - 1 && c.enrolments == enrolments[..i] + enrolments[i + 1..] &&
        c.courses == Bump(courses, courseId, -1) &&
        c.courses[courseId].enrolled == Some(courses[courseId].enrolled.GetOr(0) - 1)
  {
    if IsObjectId(courseId) && IsObjectId(userId) && Guard(courses, users, courseId, caller).None? {
      var f := FindEnrolment(enrolments, userId, courseId);
      if f.Some? {
        var i := f.value;
        var c := Remove(courses, enrolments, users, courseId, userId, caller);
        assert c == Change(Ok(()), Bump(courses, courseId, -1), enrolments[..i] + enrolments[i + 1..]);
        BumpFacts(courses, courseId, -1);
      }
    }
  }

  /** The course and enrolment collections the handlers change, over a fixed user store. */
  class Classroom {
    var courses: map<string, Course>
    var enrolments: seq<Enrolment>
    const users: seq<User>

    constructor(courses: map<string, Course>, enrolments: seq<Enrolment>, users: seq<User>)
      ensures this.courses == courses && this.enrolments == enrolments && this.users == users
    {
      this.courses := courses;
      this.enrolments := enrolments;
      this.users := users;
    }

    method AddStudentByEmail(courseId: string, email: Option<string>, caller: Option<string>)
      returns (r: Result<Enrolment, Failure>)
      requires Stored(users)
      modifies this
      ensures Change(r, courses, enrolments) == AddByEmail(old(courses), old(enrolments), users, courseId, email, caller)
    {
      if email.None? || email.value == [] {
        return Err(BadRequest);
      }
      var denied := CheckAccess(courses, users, courseId, caller);
      if denied.Some? {
        return Err(denied.value);
      }
      var found := FindByEmail(users, NormalizeEmail(email.value));
      if found.None? {
        return Err(NotFound);
      }
      var studentId := users[found.value].id.value;
      var existing := FindEnrolment(enrolments, studentId, courseId);
      if existing.Some? {
        return Err(Conflict);
      }
      var e := ApprovedEnrolment(studentId, courseId);
      enrolments := enrolments + [e];
      courses := Bump(courses, courseId, 1);
      r := Ok(e);
    }

    /** `failing`: the positions of the batch at which a store call of the `try` block throws. */
    method AddStudentsBulk(courseId: string, emails: Option<seq<Option<string>>>, caller: Option<string>,
                           failing: set<nat>)
      returns (r: Result<BulkResults, Failure>)
      requires Stored(users)
      modifies this
      ensures Change(r, courses, enrolments) ==
        AddBulk(old(courses), old(enrolments), users, courseId, emails, caller, failing)
    {
      if emails.None? || emails.value == [] {
        return Err(BadRequest);
      }
      var denied := CheckAccess(courses, users, courseId, caller);
      if denied.Some? {
        return Err(denied.value);
      }
      var list := emails.value;
      var success: seq<string> := [];
      var notFound: seq<string> := [];
      var alreadyEnrolled: seq<string> := [];
      var failed: seq<string> := [];
      for i := 0 to |list|
        invariant courses == old(courses)
        invariant BulkRun(users, courseId, old(enrolments), list[..i], failing) ==
          BulkState(BulkResults(success, notFound, alreadyEnrolled, failed), enrolments)
      {
        BulkRunStep(users, courseId, old(enrolments), list, failing, i);
        var raw := list[i];
        if raw.Some? {
          var email := NormalizeEmail(raw.value);
          if email != [] && i in failing {
            failed := failed + [email];
          } else if email != [] {
            var found := FindByEmail(users, email);
            if found.None? {
              notFound := notFound + [email];
            } else {
              var studentId := users[found.value].id.value;
              var existing := FindEnrolment(enrolments, studentId, courseId);
              if existing.Some? {
                alreadyEnrolled := alreadyEnrolled + [email];
              } else {
                enrolments := enrolments + [ApprovedEnrolment(studentId, courseId)];
                success := success + [email];
              }
            }
          }
        }
      }
      assert list[..|list|] == list;
      if |success| > 0 {
        courses := Bump(courses, courseId, |success|);
      }
      r := Ok(BulkResults(success, notFound, alreadyEnrolled, failed));
    }

    method RemoveStudent(courseId: string, userId: string, caller: Option<string>) returns (r: Result<(), Failure>)
      modifies this
      ensures Change(r, courses, enrolments) == Remove(old(courses), old(enrolments), users, courseId, userId, caller)
    {
      if !IsObjectId(courseId) || !IsObjectId(userId) {
        return Err(BadRequest);
      }
      var denied := CheckAccess(courses, users, courseId, caller);
      if denied.Some? {
        return Err(denied.value);
      }
      var found := FindEnrolment(enrolments, userId, courseId);
      if found.None? {
        return Err(NotFound);
      }
      var i := found.value;
      enrolments := enrolments[..i] + enrolments[i + 1..];
      courses := Bump(courses, courseId, -1);
      r := Ok(());
    }
  }
}
