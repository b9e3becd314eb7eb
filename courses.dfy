/**
 * The course use cases that act on one course: reading it as its owner or an admin, updating it
 * (with date strings turned into dates), deleting it as its owner, and reading it publicly
 * (private courses are reported as missing). Course documents are kept untyped.
 */
module Courses {
  import opened Wrappers
  import opened Json

  datatype CourseError = NotFound | PermissionDenied | HasSections {
    /** The message of the error the use case throws. */
    function Message(): string
    {
      match this
      case NotFound => "Course not found"
      case PermissionDenied => "Permission denied"
      case HasSections => "Cannot delete course. It has linked sections."
    }
  }

  /** What a use case returns, with the course collection afterwards. */
  datatype Change<T> = Change(result: Result<T, CourseError>, courses: map<string, Doc>)

  const Admin: string := "admin"

  /** The number of sections the delete guard reads: hard-coded to 0 in the use case. */
  const LinkedSections: int := 0

  /** `role === 'admin' || course.ownerId === userId`: who may read or change a course. */
  predicate MayManage(course: Doc, userId: string, role: string)
  {
    role == Admin || Get(course, "ownerId") == Str(userId)
  }

  // ---------------------------------------------------------------- GetCourseByIdUseCase

  /** `execute(id, userId, role)`. */
  function GetCourseById(courses: map<string, Doc>, id: string, userId: string, role: string): Result<Doc, CourseError>
  {
    if id !in courses then Err(NotFound)
    else if !MayManage(courses[id], userId, role) then Err(PermissionDenied)
    else Ok(courses[id])
  }

  /**
   * An unknown id is not found; an admin reads every stored course; anyone else reads exactly
   * the courses they own and is refused the others; what is read is the stored record.
   */
  lemma GetCourseByIdFacts(courses: map<string, Doc>, id: string, userId: string, role: string)
    ensures var r := GetCourseById(courses, id, userId, role);
      (r == Err(NotFound) <==> id !in courses) &&
      (r == Err(PermissionDenied) <==> id in courses && role != Admin && Get(courses[id], "ownerId") != Str(userId)) &&
      (r.Ok? <==> id in courses && (role == Admin || Get(courses[id], "ownerId") == Str(userId))) &&
      (r.Ok? ==> r.value == courses[id])
    ensures role == Admin && id in courses ==> GetCourseById(courses, id, userId, role) == Ok(courses[id])
  {
  }

  // ---------------------------------------------------------------- UpdateCourseUseCase

  /** A field the update turns from a non-empty string into a date. */
  predicate DateString(update: Doc, key: string)
  {
    Truthy(Get(update, key)) && Get(update, key).Str?
  }

  /** The field as `new Date(value)` where it is a non-empty string; `parse` is what that denotes. */
  function CoerceDate(update: Doc, key: string, parse: string -> Option<real>): Doc
  {
    if DateString(update, key) then update[key := Date(parse(Get(update, key).s))] else update
  }

  /** `sanitizedUpdate`: the update with its start and end dates coerced. */
  function Sanitize(update: Doc, parse: string -> Option<real>): Doc
  {
    CoerceDate(CoerceDate(update, "startDate", parse), "endDate", parse)
  }

  /**
   * Coercion changes no key: `startDate` and `endDate` become dates exactly when they are
   * non-empty strings, and every other field is passed on unchanged.
   */
  lemma SanitizeFacts(update: Doc, parse: string -> Option<real>)
    ensures Sanitize(update, parse).Keys == update.Keys
    ensures forall k :: k in {"startDate", "endDate"} && DateString(update, k) ==>
      Sanitize(update, parse)[k] == Date(parse(update[k].s))
    ensures forall k :: k in update && (k !in {"startDate", "endDate"} || !DateString(update, k)) ==>
      Sanitize(update, parse)[k] == update[k]
  {
  }

  /** `execute(id, userId, role, updateData)`: the guards, then `update(id, sanitizedUpdate)`. */
  function UpdateCourse(courses: map<string, Doc>, id: string, userId: string, role: string, update: Doc,
                        parse: string -> Option<real>): Change<Doc>
  {
    match GetCourseById(courses, id, userId, role)
    case Err(e) => Change(Err(e), courses)
    case Ok(course) =>
      var updated := course + Sanitize(update, parse);
      Change(Ok(updated), courses[id := updated])
  }

  /**
   * The guards are those of reading the course, and a refusal changes nothing. An accepted
   * update changes that course only: each field the update names takes its (coerced) value,
   * every other field keeps its stored value, and the stored record is what is returned.
   */
  lemma UpdateCourseFacts(courses: map<string, Doc>, id: string, userId: string, role: string, update: Doc,
                          parse: string -> Option<real>)
    ensures var c := UpdateCourse(courses, id, userId, role, update, parse);
      (c.result.Err? <==> GetCourseById(courses, id, userId, role).Err?) &&
      (c.result.Err? ==> c.result == Err(GetCourseById(courses, id, userId, role).error) && c.courses == courses)
    ensures var c := UpdateCourse(courses, id, userId, role, update, parse);
      c.result.Ok? ==>
        id in courses && c.courses == courses[id := c.result.value] &&
        (forall k :: k in update ==> Get(c.result.value, k) == Sanitize(update, parse)[k]) &&
        (forall k :: k !in update ==> Get(c.result.value, k) == Get(courses[id], k))
  {
    SanitizeFacts(update, parse);
  }

  // ---------------------------------------------------------------- DeleteCourseUseCase

  /** `execute(courseId, ownerId)`: existence, then ownership, then the section guard. */
  function DeleteCourse(courses: map<string, Doc>, courseId: string, ownerId: string): Change<()>
  {
    if courseId !in courses then Change(Err(NotFound), courses)
    else if Get(courses[courseId], "ownerId") != Str(ownerId) then Change(Err(PermissionDenied), courses)
    else if LinkedSections > 0 then Change(Err(HasSections), courses)
    else Change(Ok(()), courses - {courseId})
  }

  /**
   * Only the owner deletes (an admin who does not own the course is refused too), a refusal
   * changes nothing, the section guard never refuses, and a deletion removes that course and
   * keeps every other one.
   */
  lemma DeleteCourseFacts(courses: map<string, Doc>, courseId: string, ownerId: string)
    ensures var c := DeleteCourse(courses, courseId, ownerId);
      (c.result == Err(NotFound) <==> courseId !in courses) &&
      (c.result == Err(PermissionDenied) <==> courseId in courses && Get(courses[courseId], "ownerId") != Str(ownerId)) &&
      c.result != Err(HasSections) &&
      (c.result.Err? ==> c.courses == courses)
    ensures var c := DeleteCourse(courses, courseId, ownerId);
      c.result.Ok? <==> courseId in courses && Get(courses[courseId], "ownerId") == Str(ownerId)
    ensures var c := DeleteCourse(courses, courseId, ownerId);
      c.result.Ok? ==>
        courseId !in c.courses && forall k :: k in courses && k != courseId ==> k in c.courses && c.courses[k] == courses[k]
  {
  }

  // ---------------------------------------------------------------- GetPublicCourseByIdUseCase

  /** `execute(id)`: a private course is reported as missing. */
  function GetPublicCourseById(courses: map<string, Doc>, id: string): Result<Doc, CourseError>
  {
    if id !in courses || Get(courses[id], "visibility") == Str("private") then Err(NotFound)
    else Ok(courses[id])
  }

  /**
   * The only error is 'Course not found', for a missing or a private course; a public course,
   * or one without a visibility, is returned as stored.
   */
  lemma GetPublicCourseByIdFacts(courses: map<string, Doc>, id: string)
    ensures var r := GetPublicCourseById(courses, id);
      (r.Err? ==> r.error == NotFound) &&
      (r.Err? <==> id !in courses || Get(courses[id], "visibility") == Str("private")) &&
      (r.Ok? ==> r.value == courses[id])
    ensures id in courses && Get(courses[id], "visibility") in {Str("public"), Undefined} ==>
      GetPublicCourseById(courses, id) == Ok(courses[id])
  {
  }

  /** The course collection behind the repository. */
  class CourseStore {
    var courses: map<string, Doc>

    constructor(courses: map<string, Doc>)
      ensures this.courses == courses
    {
      this.courses := courses;
    }

    /** `GetCourseByIdUseCase.execute`. */
    method GetById(id: string, userId: string, role: string) returns (r: Result<Doc, CourseError>)
      ensures r == GetCourseById(courses, id, userId, role)
    {
      if id !in courses {
        return Err(NotFound);
      }
      var course := courses[id];
      if role != Admin && Get(course, "ownerId") != Str(userId) {
        return Err(PermissionDenied);
      }
      return Ok(course);
    }

    /** `UpdateCourseUseCase.execute`: the copy of the update has its dates overwritten in place. */
    method Update(id: string, userId: string, role: string, updateData: Doc, parse: string -> Option<real>)
      returns (r: Result<Doc, CourseError>)
      modifies this
      ensures Change(r, courses) == UpdateCourse(old(courses), id, userId, role, updateData, parse)
    {
      r := GetById(id, userId, role);
      if r.Err? {
        return;
      }
      var sanitized := updateData;
      if Truthy(Get(sanitized, "startDate")) && Get(sanitized, "startDate").Str? {
        sanitized := sanitized["startDate" := Date(parse(Get(sanitized, "startDate").s))];
      }
      if Truthy(Get(sanitized, "endDate")) && Get(sanitized, "endDate").Str? {
        sanitized := sanitized["endDate" := Date(parse(Get(sanitized, "endDate").s))];
      }
      var updated := courses[id] + sanitized;
      courses := courses[id := updated];
      r := Ok(updated);
    }

    /** `DeleteCourseUseCase.execute`. */
    method Delete(courseId: string, ownerId: string) returns (r: Result<(), CourseError>)
      modifies this
      ensures Change(r, courses) == DeleteCourse(old(courses), courseId, ownerId)
    {
      if courseId !in courses {
        return Err(NotFound);
      }
      if Get(courses[courseId], "ownerId") != Str(ownerId) {
        return Err(PermissionDenied);
      }
      var hasSections := LinkedSections;
      if hasSections > 0 {
        return Err(HasSections);
      }
      courses := courses - {courseId};
      r := Ok(());
    }

    /** `GetPublicCourseByIdUseCase.execute`. */
    method GetPublicById(id: string) returns (r: Result<Doc, CourseError>)
      ensures r == GetPublicCourseById(courses, id)
    {
      if id !in courses || Get(courses[id], "visibility") == Str("private") {
        return Err(NotFound);
      }
      return Ok(courses[id]);
    }
  }
}
