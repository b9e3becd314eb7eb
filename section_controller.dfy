/**
 * The section handlers' own logic: `create` needs the caller's identity and can name the course
 * by code; `update` checks the status and every schedule day before calling the use case, and
 * accepts the Vietnamese names of Sunday beside the day numbers; `delete` reports success
 * whenever the use case does not throw.
 */
module SectionController {
  import opened Wrappers
  import opened Json
  import opened Text
  import opened Records
  import opened ScheduleValidation
  import Sections

  /** A reply: a status code with a JSON document, with a message, or with a runtime TypeError's message. */
  datatype Reply = Body(status: int, doc: Doc) | Error(status: int, message: string) | RuntimeError(status: int)

  /** A reply and the section collection after the request. */
  datatype Handled = Handled(reply: Reply, sections: map<string, Doc>)

  // ---------------------------------------------------------------- update: status and days

  const AllowedStatuses: seq<string> := ["planned", "ongoing", "completed", "cancelled"]

  /** No `status` property, or one of the four statuses (`includes` compares strictly). */
  predicate StatusAccepted(body: Doc)
  {
    "status" !in body || (body["status"].Str? && body["status"].s in AllowedStatuses)
  }

  const DayWords: seq<string> := ["cn", "chủ nhật", "chu nhat"]

  /** `toLowerCase` on the letters that can make a day word: ASCII and the capitals Ủ and Ậ. */
  function DayLower(c: char): char
  {
    if c == 'Ủ' then 'ủ' else if c == 'Ậ' then 'ậ' else LowerChar(c)
  }

  /** `trim().toLowerCase()` of a day given as text is one of the names of Sunday. */
  predicate DayWord(s: string)
  {
    var t := Trim(s);
    seq(|t|, i requires 0 <= i < |t| => DayLower(t[i])) in DayWords
  }

  /** The handler's test of one item: a day number in [2, 7], or a day word. */
  function DayCheck(item: Value): Verdict
  {
    match Property(item, "dayOfWeek")
    case None => Throws
    case Some(d) => if NumericDay(d) || (d.Str? && DayWord(d.s)) then Valid else Invalid
  }

  /** The verdict of the first item that fails the handler's test, or `Valid`. */
  function DayChecks(items: seq<Value>): Verdict
  {
    if items == [] then Valid
    else if DayCheck(items[0]) != Valid then DayCheck(items[0])
    else DayChecks(items[1..])
  }

  /** The schedule check runs only on an array. */
  function ScheduleCheck(schedule: Value): Verdict
  {
    if schedule.Arr? then DayChecks(schedule.items) else Valid
  }

  lemma {:induction false} AllDaysValid(items: seq<Value>)
    ensures DayChecks(items) == Valid <==> forall i :: 0 <= i < |items| ==> DayCheck(items[i]) == Valid
  {
    if items != [] {
      AllDaysValid(items[1..]);
      assert forall i :: 1 <= i < |items| ==> items[i] == items[1..][i - 1];
    }
  }

  lemma {:induction false} FirstBadDay(items: seq<Value>, i: nat)
    requires i < |items| && DayCheck(items[i]) != Valid
    requires forall j :: 0 <= j < i ==> DayCheck(items[j]) == Valid
    ensures DayChecks(items) == DayCheck(items[i])
    decreases i
  {
    if i > 0 {
      FirstBadDay(items[1..], i - 1);
    }
  }

  /**
   * The handler's test differs from `validateScheduleDayOfWeek`'s on one item only where the
   * day is text naming Sunday, which it alone accepts: on numbers and on everything else the
   * two agree.
   */
  lemma DayCheckExtends(item: Value)
    ensures ItemVerdict(item) == Valid ==> DayCheck(item) == Valid
    ensures ItemVerdict(item) != DayCheck(item) ==>
      ItemVerdict(item) == Invalid && DayCheck(item) == Valid &&
      Property(item, "dayOfWeek").value.Str? && DayWord(Property(item, "dayOfWeek").value.s)
  {
  }

  /**
   * Every schedule `validateScheduleDayOfWeek` accepts, the handler accepts too, and a day word
   * shows that the converse fails: the handler's check is a strict superset.
   */
  lemma ScheduleCheckSuperset(schedule: Value)
    ensures ScheduleVerdict(schedule) == Valid ==> ScheduleCheck(schedule) == Valid
    ensures var sunday := Arr([Obj(map["dayOfWeek" := Str(" CN ")])]);
      ScheduleVerdict(sunday) == Invalid && ScheduleCheck(sunday) == Valid
  {
    if schedule.Arr? && ScheduleVerdict(schedule) == Valid {
      AllValid(schedule.items);
      AllDaysValid(schedule.items);
      forall i | 0 <= i < |schedule.items| ensures DayCheck(schedule.items[i]) == Valid {
        DayCheckExtends(schedule.items[i]);
      }
    }
    SundayOnlyHandler();
  }

  /** " CN " names Sunday: the handler accepts it, `validateScheduleDayOfWeek` does not. */
  lemma SundayOnlyHandler()
    ensures var sunday := Arr([Obj(map["dayOfWeek" := Str(" CN ")])]);
      ScheduleVerdict(sunday) == Invalid && ScheduleCheck(sunday) == Valid
  {
    var sunday := Arr([Obj(map["dayOfWeek" := Str(" CN ")])]);
    var t := Trim(" CN ");
    assert Trim(" CN ") == Trim("CN ") == Trim("CN") == "CN";
    assert seq(|t|, i requires 0 <= i < |t| => DayLower(t[i])) == "cn";
    assert DayCheck(sunday.items[0]) == Valid;
    assert DayChecks(sunday.items[1..]) == Valid;
  }

  /** The handler's loop over `req.body.schedule`, with its `isValid` flag and early reply. */
  method CheckSchedule(schedule: Value) returns (v: Verdict)
    ensures v == ScheduleCheck(schedule)
  {
    if !schedule.Arr? {
      return Valid;
    }
    var items := schedule.items;
    for i := 0 to |items|
      invariant forall j :: 0 <= j < i ==> DayCheck(items[j]) == Valid
    {
      var day := Property(items[i], "dayOfWeek");
      if day.None? {
        FirstBadDay(items, i);
        return Throws;
      }
      var isValid := false;
      if day.value.Num? {
        if 2.0 <= day.value.n <= 7.0 {
          isValid := true;
        }
      } else if day.value.Str? {
        if DayWord(day.value.s) {
          isValid := true;
        }
      }
      if !isValid {
        FirstBadDay(items, i);
        return Invalid;
      }
    }
    AllDaysValid(items);
    return Valid;
  }

  /** `SectionController.update`: the two checks, then the use case; a null result is a 404. */
  function UpdateOutcome(sections: map<string, Doc>, id: string, body: Doc): Handled
  {
    if !StatusAccepted(body) then Handled(Error(400, "Invalid status"), sections)
    else match ScheduleCheck(Get(body, "schedule"))
      case Throws => Handled(RuntimeError(400), sections)
      case Invalid => Handled(Error(400, InvalidDayOfWeek), sections)
      case Valid =>
        var c := Sections.Update(sections, id, body);
        match c.result.value
        case None => Handled(Error(404, "Section not found"), c.sections)
        case Some(doc) => Handled(Body(200, doc), c.sections)
  }

  /**
   * A status outside the four is a 400 before anything else; a schedule with a bad day is a
   * 400; neither changes anything. A request that passes both is the use case's update: a 404
   * for an unknown id, otherwise a 200 with the updated record.
   */
  lemma UpdateOutcomeFacts(sections: map<string, Doc>, id: string, body: Doc)
    ensures var h := UpdateOutcome(sections, id, body);
      ("status" in body && !(body["status"].Str? && body["status"].s in AllowedStatuses) ==>
        h == Handled(Error(400, "Invalid status"), sections)) &&
      (StatusAccepted(body) && ScheduleCheck(Get(body, "schedule")) == Invalid ==>
        h == Handled(Error(400, "Invalid dayOfWeek"), sections)) &&
      (h.reply.status == 400 ==> h.sections == sections)
    ensures var h := UpdateOutcome(sections, id, body);
      StatusAccepted(body) && ScheduleCheck(Get(body, "schedule")) == Valid ==>
        h.sections == Sections.Update(sections, id, body).sections &&
        (id !in sections ==> h.reply == Error(404, "Section not found")) &&
        (id in sections ==> h.reply == Body(200, h.sections[id]))
  {
  }

  // ---------------------------------------------------------------- create: identity and course code

  /** `CourseModel.findOne({ code })`: the first course with that code (codes are unique). */
  function FindByCode(catalog: seq<Course>, code: Value): (r: Option<Course>)
    ensures r.Some? ==> code.Str? && r.value in catalog && r.value.code == Some(code.s)
    ensures r.None? && code.Str? ==> forall c :: c in catalog ==> c.code != Some(code.s)
  {
    if catalog == [] || !code.Str? then None
    else if catalog[0].code == Some(code.s) then Some(catalog[0])
    else FindByCode(catalog[1..], code)
  }

  const UnknownCourseCode: string := "Course code không tồn tại"

  /** The body the use case gets: the course named by code stands in for a falsy courseId. */
  function Resolve(body: Doc, catalog: seq<Course>): Option<Doc>
  {
    if !Truthy(Get(body, "courseId")) && Truthy(Get(body, "courseCode")) then
      match FindByCode(catalog, Get(body, "courseCode"))
      case None => None
      case Some(c) => Some(body["courseId" := Str(c.id)])
    else Some(body)
  }

  /** `SectionController.create`; the use case's errors become 400s with their message. */
  function CreateOutcome(sections: map<string, Doc>, user: Option<Doc>, body: Doc, catalog: seq<Course>,
                         dateOf: Value -> Option<real>, newId: string): Handled
  {
    if user.None? || "userId" !in user.value then Handled(Error(401, "Unauthorized: missing user info"), sections)
    else match Resolve(body, catalog)
      case None => Handled(Error(400, UnknownCourseCode), sections)
      case Some(resolved) =>
        var c := Sections.Create(sections, resolved, user.value["userId"], dateOf, newId);
        match c.result
        case Err(e) => Handled(Error(400, e.Message()), c.sections)
        case Ok(doc) => Handled(Body(201, doc), c.sections)
  }

  /**
   * No user, or one without `userId`, is a 401. The course code is looked up only when the
   * courseId is falsy, and an unknown code is a 400. Nothing is stored unless the reply is a
   * 201, which stores the record under the caller's userId with the resolved course.
   */
  lemma CreateOutcomeFacts(sections: map<string, Doc>, user: Option<Doc>, body: Doc, catalog: seq<Course>,
                           dateOf: Value -> Option<real>, newId: string)
    ensures var h := CreateOutcome(sections, user, body, catalog, dateOf, newId);
      ((user.None? || "userId" !in user.value) <==> h.reply == Error(401, "Unauthorized: missing user info")) &&
      (h.reply.status != 201 ==> h.sections == sections)
    ensures var h := CreateOutcome(sections, user, body, catalog, dateOf, newId);
      user.Some? && "userId" in user.value && !Truthy(Get(body, "courseId")) && Truthy(Get(body, "courseCode")) &&
      FindByCode(catalog, Get(body, "courseCode")).None? ==>
        h.reply == Error(400, UnknownCourseCode)
    ensures var h := CreateOutcome(sections, user, body, catalog, dateOf, newId);
      h.reply.Body? ==>
        h.reply.status == 201 && user.Some? && "userId" in user.value &&
        h.sections == sections[newId := h.reply.doc] &&
        Get(h.reply.doc, "teacherId") == user.value["userId"] &&
        Get(h.reply.doc, "status") == Str("planned") &&
        (Truthy(Get(body, "courseId")) ==> Get(h.reply.doc, "courseId") == body["courseId"]) &&
        (!Truthy(Get(body, "courseId")) ==>
          FindByCode(catalog, Get(body, "courseCode")).Some? &&
          Get(h.reply.doc, "courseId") == Str(FindByCode(catalog, Get(body, "courseCode")).value.id))
  {
    if user.Some? && "userId" in user.value {
      var resolved := Resolve(body, catalog);
      if resolved.Some? {
        Sections.CreateFacts(sections, resolved.value, user.value["userId"], dateOf, newId);
      }
    }
  }

  // ---------------------------------------------------------------- delete

  /** `SectionController.delete`: `{ success: true }` unless the use case throws. */
  function DeleteOutcome(sections: map<string, Doc>, rows: seq<Enrolment>, id: string): Handled
  {
    var c := Sections.Delete(sections, rows, id);
    match c.result
    case Err(e) => Handled(Error(400, e.Message()), c.sections)
    case Ok(_) => Handled(Body(200, map["success" := Bool(true)]), c.sections)
  }

  /** A section without enrolments is reported deleted even when it never existed. */
  lemma DeleteOutcomeFacts(sections: map<string, Doc>, rows: seq<Enrolment>, id: string)
    ensures var h := DeleteOutcome(sections, rows, id);
      (h.reply.Error? <==> exists i :: 0 <= i < |rows| && rows[i].sectionId == Some(id)) &&
      (h.reply.Error? ==> h.reply == Error(400, "Section has enrollments, cannot delete") && h.sections == sections) &&
      (h.reply.Body? ==> h.reply == Body(200, map["success" := Bool(true)]) && id !in h.sections)
  {
    Sections.DeleteFacts(sections, rows, id);
  }

  // ---------------------------------------------------------------- the handlers

  /** `SectionController.create`, with the store assigning the fresh `newId`. */
  method Create(store: Sections.SectionStore, user: Option<Doc>, body: Doc, catalog: seq<Course>,
                dateOf: Value -> Option<real>, newId: string) returns (reply: Reply)
    requires newId !in store.sections
    modifies store
    ensures Handled(reply, store.sections) == CreateOutcome(old(store.sections), user, body, catalog, dateOf, newId)
    ensures store.enrolments == old(store.enrolments)
  {
    if user.None? || "userId" !in user.value {
      return Error(401, "Unauthorized: missing user info");
    }
    var teacherId := user.value["userId"];
    var copy := body;
    if !Truthy(Get(copy, "courseId")) && Truthy(Get(copy, "courseCode")) {
      var course := FindByCode(catalog, Get(copy, "courseCode"));
      if course.None? {
        return Error(400, UnknownCourseCode);
      }
      copy := copy["courseId" := Str(course.value.id)];
    }
    var r := store.CreateSection(copy, teacherId, dateOf, newId);
    match r
    case Err(e) => reply := Error(400, e.Message());
    case Ok(doc) => reply := Body(201, doc);
  }

  /** `SectionController.update`. */
  method Update(store: Sections.SectionStore, id: string, body: Doc) returns (reply: Reply)
    modifies store
    ensures Handled(reply, store.sections) == UpdateOutcome(old(store.sections), id, body)
    ensures store.enrolments == old(store.enrolments)
  {
    if "status" in body && !(body["status"].Str? && body["status"].s in AllowedStatuses) {
      return Error(400, "Invalid status");
    }
    var days := CheckSchedule(Get(body, "schedule"));
    if days == Throws {
      return RuntimeError(400);
    } else if days == Invalid {
      return Error(400, InvalidDayOfWeek);
    }
    var section := store.UpdateSection(id, body);
    if section.None? {
      return Error(404, "Section not found");
    }
    reply := Body(200, section.value);
  }

  /** `SectionController.delete`. */
  method Delete(store: Sections.SectionStore, id: string) returns (reply: Reply)
    modifies store
    ensures Handled(reply, store.sections) == DeleteOutcome(old(store.sections), old(store.enrolments), id)
    ensures store.enrolments == old(store.enrolments)
  {
    var r := store.DeleteSection(id);
    if r.Err? {
      return Error(400, r.error.Message());
    }
    reply := Body(200, map["success" := Bool(true)]);
  }
}
