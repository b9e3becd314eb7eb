/**
 * The section use cases: creating a section (course and date checks, forced teacher and status),
 * updating one (only `schedule` and `status` get through), and deleting one (refused while any
 * enrolment names the section). Section documents are kept untyped, as the handlers see them.
 */
module Sections {
  import opened Wrappers
  import opened Json
  import opened Records

  datatype SectionError = CourseIdRequired | BadDates | HasEnrolments {
    /** The message of the error the use case throws. */
    function Message(): string
    {
      match this
      case CourseIdRequired => "courseId is required"
      case BadDates => "endDate must be after startDate"
      case HasEnrolments => "Section has enrollments, cannot delete"
    }
  }

  /** What a use case returns, with the section collection afterwards. */
  datatype Change<T> = Change(result: Result<T, SectionError>, sections: map<string, Doc>)

  // ---------------------------------------------------------------- CreateSectionUsecase

  /**
   * `new Date(end) <= new Date(start)`, where `None` is an invalid date: every comparison with
   * an invalid date (NaN) is false.
   */
  predicate NotAfter(end: Option<real>, start: Option<real>)
  {
    end.Some? && start.Some? && end.value <= start.value
  }

  /** The check `execute` makes before writing; `dateOf` is what `new Date(v)` denotes. */
  function CreateError(data: Doc, dateOf: Value -> Option<real>): Option<SectionError>
  {
    if !Truthy(Get(data, "courseId")) then Some(CourseIdRequired)
    else if !Truthy(Get(data, "startDate")) || !Truthy(Get(data, "endDate")) ||
            NotAfter(dateOf(Get(data, "endDate")), dateOf(Get(data, "startDate"))) then Some(BadDates)
    else None
  }

  /** The record stored by `create`: the prepared input under the identifier the store assigns. */
  function Create(sections: map<string, Doc>, data: Doc, teacherId: Value, dateOf: Value -> Option<real>,
                  newId: string): Change<Doc>
  {
    match CreateError(data, dateOf)
    case Some(e) => Change(Err(e), sections)
    case None =>
      var doc := data["teacherId" := teacherId]["status" := Str("planned")]["_id" := Str(newId)];
      Change(Ok(doc), sections[newId := doc])
  }

  /**
   * A falsy courseId is refused first; then missing dates, or two valid dates with the end not
   * after the start (an invalid date gets through). A refusal stores nothing. A success stores
   * one record under the new identifier: the caller as teacher, status 'planned' whatever the
   * input said, and every other field of the input unchanged.
   */
  lemma CreateFacts(sections: map<string, Doc>, data: Doc, teacherId: Value, dateOf: Value -> Option<real>, newId: string)
    ensures var c := Create(sections, data, teacherId, dateOf, newId);
      (c.result == Err(CourseIdRequired) <==> !Truthy(Get(data, "courseId"))) &&
      (c.result == Err(BadDates) <==>
        Truthy(Get(data, "courseId")) &&
        (!Truthy(Get(data, "startDate")) || !Truthy(Get(data, "endDate")) ||
         NotAfter(dateOf(Get(data, "endDate")), dateOf(Get(data, "startDate"))))) &&
      (c.result.Err? ==> c.sections == sections)
    ensures var c := Create(sections, data, teacherId, dateOf, newId);
      c.result.Ok? ==>
        c.sections == sections[newId := c.result.value] &&
        Get(c.result.value, "teacherId") == teacherId &&
        Get(c.result.value, "status") == Str("planned") &&
        Get(c.result.value, "_id") == Str(newId) &&
        forall k :: k !in {"teacherId", "status", "_id"} ==> Get(c.result.value, k) == Get(data, k)
  {
  }

  // ---------------------------------------------------------------- UpdateSectionUsecase

  /** The keys the use case copies, in the order it visits them. */
  const Allowed: seq<string> := ["schedule", "status"]

  /** The update restricted to the allowed keys that are not `undefined`. */
  function Filter(update: Doc): Doc
  {
    map k | k in update && k in Allowed && update[k] != Undefined :: update[k]
  }

  /**
   * `findByIdAndUpdate(id, filtered, { new: true })`: `None` for an unknown id; otherwise the
   * stored record with the filtered fields set, which is also what is returned.
   */
  function Update(sections: map<string, Doc>, id: string, update: Doc): Change<Option<Doc>>
  {
    if id in sections then
      var doc := sections[id] + Filter(update);
      Change(Ok(Some(doc)), sections[id := doc])
    else Change(Ok(None), sections)
  }

  /**
   * The filtered update holds only `schedule` and `status` (so `room` and every other key is
   * dropped, though the comment in the source lists room as allowed), never an `undefined`
   * value, and copies every defined allowed value unchanged.
   */
  lemma FilterFacts(update: Doc)
    ensures forall k :: k in Filter(update) ==> k == "schedule" || k == "status"
    ensures forall k :: k in Filter(update) ==> k in update && Filter(update)[k] == update[k] && update[k] != Undefined
    ensures forall k :: k in Allowed && Get(update, k) != Undefined ==> k in Filter(update)
    ensures "room" !in Filter(update)
  {
  }

  /**
   * An unknown id changes nothing and yields null. A known one changes that record only: its
   * schedule and status become the update's where the update defines them, and every other
   * field, room included, keeps its stored value.
   */
  lemma UpdateFacts(sections: map<string, Doc>, id: string, update: Doc)
    ensures var c := Update(sections, id, update);
      c.result.Ok? && (c.result.value.None? <==> id !in sections) &&
      (id !in sections ==> c.sections == sections)
    ensures var c := Update(sections, id, update);
      id in sections ==>
        c.sections == sections[id := c.result.value.value] &&
        (forall k :: k in Allowed ==>
          Get(c.result.value.value, k) == (if Get(update, k) != Undefined then update[k] else Get(sections[id], k))) &&
        (forall k :: k !in Allowed ==> Get(c.result.value.value, k) == Get(sections[id], k))
  {
    FilterFacts(update);
  }

  /** An update is idempotent: applying the same body twice leaves what applying it once did. */
  lemma UpdateIdempotent(sections: map<string, Doc>, id: string, update: Doc)
    ensures var once := Update(sections, id, update);
      Update(once.sections, id, update) == once
  {
    if id in sections {
      var doc := sections[id] + Filter(update);
      assert doc + Filter(update) == doc;
    }
  }

  // ---------------------------------------------------------------- DeleteSectionUsecase

  /** `countEnrollments(sectionId)`: the enrolments that name the section. */
  function CountBySection(rows: seq<Enrolment>, sectionId: string): nat
  {
    if rows == [] then 0
    else CountBySection(rows[..|rows| - 1], sectionId) + (if rows[|rows| - 1].sectionId == Some(sectionId) then 1 else 0)
  }

  /** The count is positive exactly when some enrolment names the section. */
  lemma {:induction false} CountPositive(rows: seq<Enrolment>, sectionId: string)
    ensures CountBySection(rows, sectionId) > 0 <==> exists i :: 0 <= i < |rows| && rows[i].sectionId == Some(sectionId)
  {
    if rows != [] {
      var init := rows[..|rows| - 1];
      CountPositive(init, sectionId);
      assert forall i :: 0 <= i < |init| ==> init[i] == rows[i];
    }
  }

  /** The count is read first; a positive count throws before any deletion. */
  function Delete(sections: map<string, Doc>, rows: seq<Enrolment>, id: string): Change<bool>
  {
    if CountBySection(rows, id) > 0 then Change(Err(HasEnrolments), sections)
    else Change(Ok(id in sections), sections - {id})
  }

  /**
   * A section some enrolment names is kept and the call throws. Otherwise the result is
   * whether the store held the section, which is gone afterwards while every other one stays.
   */
  lemma DeleteFacts(sections: map<string, Doc>, rows: seq<Enrolment>, id: string)
    ensures var c := Delete(sections, rows, id);
      (c.result.Err? <==> exists i :: 0 <= i < |rows| && rows[i].sectionId == Some(id)) &&
      (c.result.Err? ==> c.result.error == HasEnrolments && c.sections == sections)
    ensures var c := Delete(sections, rows, id);
      c.result.Ok? ==>
        c.result.value == (id in sections) && id !in c.sections &&
        forall k :: k in sections && k != id ==> k in c.sections && c.sections[k] == sections[k]
  {
    CountPositive(rows, id);
  }

  /** The section collection and the enrolments the use cases read. */
  class SectionStore {
    var sections: map<string, Doc>
    var enrolments: seq<Enrolment>

    constructor(sections: map<string, Doc>, enrolments: seq<Enrolment>)
      ensures this.sections == sections && this.enrolments == enrolments
    {
      this.sections := sections;
      this.enrolments := enrolments;
    }

    /** `CreateSectionUsecase.execute(data, teacherId)`; the store assigns the fresh `newId`. */
    method CreateSection(data: Doc, teacherId: Value, dateOf: Value -> Option<real>, newId: string)
      returns (r: Result<Doc, SectionError>)
      requires newId !in sections
      modifies this
      ensures Change(r, sections) == Create(old(sections), data, teacherId, dateOf, newId)
      ensures enrolments == old(enrolments)
    {
      if !Truthy(Get(data, "courseId")) {
        return Err(CourseIdRequired);
      }
      if !Truthy(Get(data, "startDate")) || !Truthy(Get(data, "endDate")) ||
         NotAfter(dateOf(Get(data, "endDate")), dateOf(Get(data, "startDate"))) {
        return Err(BadDates);
      }
      var prepared := data;
      prepared := prepared["teacherId" := teacherId];
      prepared := prepared["status" := Str("planned")];
      var doc := prepared["_id" := Str(newId)];
      sections := sections[newId := doc];
      r := Ok(doc);
    }

    /** `UpdateSectionUsecase.execute(id, update)`: the key filter, then the store update. */
    method UpdateSection(id: string, update: Doc) returns (r: Option<Doc>)
      modifies this
      ensures Change(Ok(r), sections) == Update(old(sections), id, update)
      ensures enrolments == old(enrolments)
    {
      var filtered := FilterAllowed(update);
      if id in sections {
        var doc := sections[id] + filtered;
        sections := sections[id := doc];
        r := Some(doc);
      } else {
        r := None;
      }
    }

    /** `DeleteSectionUsecase.execute(id)`. */
    method DeleteSection(id: string) returns (r: Result<bool, SectionError>)
      modifies this
      ensures Change(r, sections) == Delete(old(sections), old(enrolments), id)
      ensures enrolments == old(enrolments)
    {
      var count := CountBySection(enrolments, id);
      if count > 0 {
        return Err(HasEnrolments);
      }
      var existed := id in sections;
      sections := sections - {id};
      r := Ok(existed);
    }
  }

  /** The use case's loop over the allowed keys, copying each one the update defines. */
  method FilterAllowed(update: Doc) returns (filtered: Doc)
    ensures filtered == Filter(update)
  {
    filtered := map[];
    for i := 0 to |Allowed|
      invariant filtered == map k | k in update && k in Allowed[..i] && update[k] != Undefined :: update[k]
    {
      var key := Allowed[i];
      assert Allowed[..i + 1] == Allowed[..i] + [key];
      if Get(update, key) != Undefined {
        filtered := filtered[key := update[key]];
      }
    }
    assert Allowed[..|Allowed|] == Allowed;
  }
}
