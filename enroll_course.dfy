/**
 * Self-enrolment in a course: the course must exist and not be archived; an existing enrolment
 * is returned as is; a positive capacity caps the number of enrolments; a new enrolment raises
 * the course's `enrolled` counter by one.
 */
module EnrollCourse {
  import opened Wrappers
  import opened Records

  datatype EnrolError = CourseNotFound | CourseArchived | CourseFull

  /** What the use case returns: the enrolment, the course as re-read, and whether it already existed. */
  datatype Enrolled = Enrolled(enrolment: Enrolment, course: Course, alreadyEnrolled: bool)

  datatype EnrolOutcome = EnrolOutcome(result: Result<Enrolled, EnrolError>, courses: map<string, Course>, enrolments: seq<Enrolment>)

  /** `countByCourse`: the enrolments of the course, whatever their status. */
  function CountByCourse(rows: seq<Enrolment>, courseId: string): nat
  {
    if rows == [] then 0
    else CountByCourse(rows[..|rows| - 1], courseId) + (if rows[|rows| - 1].courseId == courseId then 1 else 0)
  }

  /** The store's unique index on (userId, courseId). */
  predicate UniquePairs(rows: seq<Enrolment>)
  {
    forall i, j :: 0 <= i < j < |rows| ==> !(rows[i].userId == rows[j].userId && rows[i].courseId == rows[j].courseId)
  }

  /** `course.capacity ?? 0`. */
  function CapacityOf(c: Course): int
  {
    c.capacity.GetOr(0)
  }

  /** `EnrollCourseUseCase.execute`; the enrolment the repository creates carries no status. */
  function Enrol(courses: map<string, Course>, rows: seq<Enrolment>, userId: string, courseId: string,
                 sectionId: Option<string>): EnrolOutcome
  {
    if courseId !in courses then EnrolOutcome(Err(CourseNotFound), courses, rows)
    else
      var course := courses[courseId];
      if course.status == Archived then EnrolOutcome(Err(CourseArchived), courses, rows)
      else match FindEnrolment(rows, userId, courseId)
        case Some(i) => EnrolOutcome(Ok(Enrolled(rows[i], course, true)), courses, rows)
        case None =>
          if CapacityOf(course) > 0 && CountByCourse(rows, courseId) >= CapacityOf(course) then
            EnrolOutcome(Err(CourseFull), courses, rows)
          else
            var e := Enrolment(userId, courseId, None, sectionId);
            var updated := Bump(courses, courseId, 1);
            EnrolOutcome(Ok(Enrolled(e, updated[courseId], false)), updated, rows + [e])
  }

  lemma CountAppend(rows: seq<Enrolment>, e: Enrolment, courseId: string)
    ensures CountByCourse(rows + [e], courseId) == CountByCourse(rows, courseId) + (if e.courseId == courseId then 1 else 0)
  {
    assert (rows + [e])[..|rows|] == rows;
  }

  /**
   * The guards in order: an unknown course, then an archived one (even for a learner already
   * enrolled), then an existing enrolment, returned with no change, then a full course.
   * Every refusal changes nothing.
   */
  lemma EnrolGuards(courses: map<string, Course>, rows: seq<Enrolment>, userId: string, courseId: string, sectionId: Option<string>)
    ensures var o := Enrol(courses, rows, userId, courseId, sectionId);
      (o.result.Err? || o.result.value.alreadyEnrolled ==> o.courses == courses && o.enrolments == rows) &&
      (courseId !in courses ==> o.result == Err(CourseNotFound)) &&
      (courseId in courses && courses[courseId].status == Archived ==> o.result == Err(CourseArchived))
    ensures var o := Enrol(courses, rows, userId, courseId, sectionId);
      courseId in courses && courses[courseId].status == Active && FindEnrolment(rows, userId, courseId).Some? ==>
        o.result == Ok(Enrolled(rows[FindEnrolment(rows, userId, courseId).value], courses[courseId], true))
    ensures var o := Enrol(courses, rows, userId, courseId, sectionId);
      courseId in courses && courses[courseId].status == Active && FindEnrolment(rows, userId, courseId).None? ==>
        (o.result == Err(CourseFull) <==>
          CapacityOf(courses[courseId]) > 0 && CountByCourse(rows, courseId) >= CapacityOf(courses[courseId]))
  {
  }

  /**
   * A new enrolment is one row for the learner and course with the given section, the course's
   * counter rises by one and is what the result shows, and under a positive capacity the
   * course's enrolments stay within it.
   */
  lemma EnrolSuccess(courses: map<string, Course>, rows: seq<Enrolment>, userId: string, courseId: string, sectionId: Option<string>)
    ensures var o := Enrol(courses, rows, userId, courseId, sectionId);
      o.result.Ok? && !o.result.value.alreadyEnrolled ==>
        courseId in courses && courses[courseId].status == Active &&
        o.enrolments == rows + [Enrolment(userId, courseId, None, sectionId)] &&
        o.result.value.enrolment == Enrolment(userId, courseId, None, sectionId) &&
        o.courses == Bump(courses, courseId, 1) && o.result.value.course == o.courses[courseId] &&
        o.courses[courseId].enrolled == Some(courses[courseId].enrolled.GetOr(0) + 1) &&
        CountByCourse(o.enrolments, courseId) == CountByCourse(rows, courseId) + 1 &&
        (CapacityOf(courses[courseId]) > 0 ==> CountByCourse(o.enrolments, courseId) <= CapacityOf(courses[courseId]))
  {
    CountAppend(rows, Enrolment(userId, courseId, None, sectionId), courseId);
  }

  /** Enrolling keeps (learner, course) pairs unique. */
  lemma EnrolKeepsPairsUnique(courses: map<string, Course>, rows: seq<Enrolment>, userId: string, courseId: string, sectionId: Option<string>)
    requires UniquePairs(rows)
    ensures UniquePairs(Enrol(courses, rows, userId, courseId, sectionId).enrolments)
  {
    var o := Enrol(courses, rows, userId, courseId, sectionId);
    if o.enrolments != rows {
      assert o.enrolments == rows + [Enrolment(userId, courseId, None, sectionId)];
      forall i, j | 0 <= i < j < |o.enrolments|
        ensures !(o.enrolments[i].userId == o.enrolments[j].userId && o.enrolments[i].courseId == o.enrolments[j].courseId)
      {
        if j < |rows| {
          assert o.enrolments[i] == rows[i] && o.enrolments[j] == rows[j];
        } else {
          assert o.enrolments[i] == rows[i];
        }
      }
    }
  }

  /** The courses and enrolments the use case reads and changes. */
  class EnrolmentStore {
    var courses: map<string, Course>
    var enrolments: seq<Enrolment>

    constructor(courses: map<string, Course>, enrolments: seq<Enrolment>)
      ensures this.courses == courses && this.enrolments == enrolments
    {
      this.courses := courses;
      this.enrolments := enrolments;
    }

    method Execute(userId: string, courseId: string, sectionId: Option<string>) returns (r: Result<Enrolled, EnrolError>)
      modifies this
      ensures EnrolOutcome(r, courses, enrolments) == Enrol(old(courses), old(enrolments), userId, courseId, sectionId)
    {
      if courseId !in courses {
        return Err(CourseNotFound);
      }
      var course := courses[courseId];
      if course.status == Archived {
        return Err(CourseArchived);
      }
      var existing := FindEnrolment(enrolments, userId, courseId);
      if existing.Some? {
        return Ok(Enrolled(enrolments[existing.value], course, true));
      }
      var capacity := course.capacity.GetOr(0);
      if capacity > 0 {
        var count := CountByCourse(enrolments, courseId);
        if count >= capacity {
          return Err(CourseFull);
        }
      }
      var e := Enrolment(userId, courseId, None, sectionId);
      enrolments := enrolments + [e];
      courses := Bump(courses, courseId, 1);
      r := Ok(Enrolled(e, courses[courseId], false));
    }
  }
}
