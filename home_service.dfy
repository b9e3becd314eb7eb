/**
 * The home page's dashboard: sections, tickets, notifications and public courses mapped to the
 * summaries the page shows, with the fallbacks for every missing field, and the two headline
 * figures derived from the section counts.
 */
module HomeService {
  import opened Wrappers
  import opened Numeric
  import opened Text
  import Records

  /** `DAY_LABELS`: index 0 is Sunday. */
  const DayLabels: seq<string> := ["Sunday", "Monday", "Tuesday", "Wednesday", "Thursday", "Friday", "Saturday"]

  const ClassLimit: nat := 4
  const AssignmentLimit: nat := 4
  const NotificationLimit: nat := 4
  const SectionQueryLimit: nat := 6

  // ---------------------------------------------------------------- formatSchedule

  datatype ScheduleItem = ScheduleItem(dayOfWeek: int, startTime: Option<string>, endTime: Option<string>, room: Option<string>)

  datatype ScheduleSummary = ScheduleSummary(timeLabel: string, room: string, lessonCount: nat)

  /** `DAY_LABELS[d] || \`Day ${d}\``. */
  function DayName(d: int): string
  {
    if 0 <= d < |DayLabels| then DayLabels[d] else "Day " + IntToString(d)
  }

  function FormatSchedule(schedule: Option<seq<ScheduleItem>>): ScheduleSummary
  {
    if schedule.None? || schedule.value == [] then ScheduleSummary("TBD", "TBD", 0)
    else
      var first := schedule.value[0];
      var shown := DayName(first.dayOfWeek) + " " + Records.OrElse(first.startTime, "??") + " - " +
                   Records.OrElse(first.endTime, "??");
      ScheduleSummary(shown, Records.OrElse(first.room, "TBD"), |schedule.value|)
  }

  /**
   * An absent or empty schedule is 'TBD' in 'TBD' with no lessons. Otherwise the label and room
   * come from the first item: its weekday for an index 0..6 and "Day N" for any other, '??' for
   * a missing time, 'TBD' for a missing room; the lesson count is the number of items.
   */
  lemma FormatScheduleFacts(schedule: Option<seq<ScheduleItem>>)
    ensures schedule.None? || schedule.value == [] ==> FormatSchedule(schedule) == ScheduleSummary("TBD", "TBD", 0)
    ensures schedule.Some? && schedule.value != [] ==>
      var first := schedule.value[0];
      var s := FormatSchedule(schedule);
      s.lessonCount == |schedule.value| &&
      s.room == (if first.room.Some? && first.room.value != [] then first.room.value else "TBD") &&
      s.timeLabel == DayName(first.dayOfWeek) + " " +
        (if first.startTime.Some? && first.startTime.value != [] then first.startTime.value else "??") + " - " +
        (if first.endTime.Some? && first.endTime.value != [] then first.endTime.value else "??")
    ensures forall d :: 0 <= d < 7 ==> DayName(d) == DayLabels[d]
    ensures forall d :: !(0 <= d < 7) ==> DayName(d) == "Day " + IntToString(d)
  {
  }

  /** Only the first item shows: items after it change the lesson count and nothing else. */
  lemma FormatScheduleFirstOnly(first: ScheduleItem, rest1: seq<ScheduleItem>, rest2: seq<ScheduleItem>)
    ensures var a := FormatSchedule(Some([first] + rest1));
      var b := FormatSchedule(Some([first] + rest2));
      a.timeLabel == b.timeLabel && a.room == b.room &&
      a.lessonCount == 1 + |rest1| && b.lessonCount == 1 + |rest2|
  {
  }

  /** The part after "Day " of a rendered day number. */
  lemma IntToStringInjective(m: int, n: int)
    requires IntToString(m) == IntToString(n)
    ensures m == n
  {
    if m < 0 && n < 0 {
      assert NatToString(-m) == IntToString(m)[1..];
      NatToStringInjective(-m, -n);
    } else if m >= 0 && n >= 0 {
      NatToStringInjective(m, n);
    } else {
      assert false;
    }
  }

  /** Different day indices render differently, so the label identifies the first day. */
  lemma DayNameInjective(d: int, e: int)
    requires DayName(d) == DayName(e)
    ensures d == e
  {
    DayNamePrefix(d);
    DayNamePrefix(e);
    if !(0 <= d < 7) {
      assert IntToString(d) == DayName(d)[4..];
      assert IntToString(e) == DayName(e)[4..];
      IntToStringInjective(d, e);
    }
  }

  /** Exactly the indices without a weekday render with the prefix "Day ". */
  lemma DayNamePrefix(d: int)
    ensures |DayName(d)| >= 4 && (DayName(d)[..4] == "Day " <==> !(0 <= d < 7))
  {
    if 0 <= d < 7 {
      assert DayName(d)[0] != 'D' by {
        if d == 0 {} else if d == 1 {} else if d == 2 {} else if d == 3 {} else if d == 4 {} else if d == 5 {}
      }
    }
  }

  /**
   * The section records number weekdays from 2 = Monday to 7 = Saturday, and the day checks
   * accept exactly 2..7; counted from 0 = Sunday, the home page shows each such day as the day
   * after it, and day 7 as "Day 7".
   */
  lemma ValidatedDaysShifted()
    ensures DayName(2) == "Tuesday" && DayName(6) == "Saturday"
    ensures DayName(7) == "Day 7"
  {
    assert IntToString(7) == "7";
  }

  /**
   * The day name the section numbering evidently calls for: 2 = Monday up to 7 = Saturday read
   * one place earlier in the label table; any other number is shown as before.
   */
  function DayNameFixed(d: int): string
  {
    if 2 <= d <= 7 then DayLabels[d - 1] else DayName(d)
  }

  /** With the corrected reading, every validated day shows its own weekday, and none shows Sunday. */
  lemma DayNameFixedFacts()
    ensures forall d :: 2 <= d <= 7 ==> DayNameFixed(d) == DayLabels[d - 1] && DayNameFixed(d) != "Sunday"
    ensures DayNameFixed(2) == "Monday" && DayNameFixed(7) == "Saturday"
  {
    forall d | 2 <= d <= 7
      ensures DayNameFixed(d) != "Sunday"
    {
      assert DayNameFixed(d)[0] != 'S' || DayNameFixed(d)[1] != 'u';
    }
  }

  // ---------------------------------------------------------------- toAssignmentStatus

  datatype AssignmentStatus = ToDo | InProgress | Done {
    /** The label the page receives. */
    function Label(): string
    {
      match this
      case ToDo => "pending"
      case InProgress => "in-progress"
      case Done => "completed"
    }
  }

  function ToAssignmentStatus(status: string): AssignmentStatus
  {
    match status
    case "in_progress" => InProgress
    case "resolved" => Done
    case "closed" => Done
    case "completed" => Done
    case _ => ToDo
  }

  /** `PENDING_TICKET_STATUSES`: the statuses counted as pending assignments. */
  const PendingTicketStatuses: seq<string> := ["open", "in_progress", "on_hold"]

  /**
   * in_progress is in progress; resolved, closed and completed are completed; every other
   * status is pending. A ticket counted as pending never shows as completed, but one counts
   * while showing 'in-progress', and a ticket showing 'pending' need not be counted.
   */
  lemma ToAssignmentStatusFacts(status: string)
    ensures ToAssignmentStatus(status) == InProgress <==> status == "in_progress"
    ensures ToAssignmentStatus(status) == Done <==> status in ["resolved", "closed", "completed"]
    ensures ToAssignmentStatus(status) == ToDo <==> status !in ["in_progress", "resolved", "closed", "completed"]
    ensures status in PendingTicketStatuses ==> ToAssignmentStatus(status) != Done
    ensures ToAssignmentStatus("in_progress").Label() == "in-progress" && "in_progress" in PendingTicketStatuses
    ensures ToAssignmentStatus("cancelled") == ToDo && "cancelled" !in PendingTicketStatuses
  {
  }

  // ---------------------------------------------------------------- mapSection

  /** The populated `courseId` (null when the course is gone) and `teacherId`. */
  datatype CourseRef = CourseRef(name: Option<string>, code: Option<string>)
  datatype TeacherRef = TeacherRef(fullName: Option<string>, email: Option<string>)

  /** A section as the dashboard query returns it; `status` is `None` when it is not a string. */
  datatype SectionDoc = SectionDoc(
    id: string,
    course: Option<CourseRef>,
    teacher: Option<TeacherRef>,
    name: Option<string>,
    status: Option<string>,
    schedule: Option<seq<ScheduleItem>>)

  datatype ClassSummary = ClassSummary(
    id: string,
    courseCode: string,
    courseName: string,
    instructor: string,
    progress: int,
    schedule: string,
    room: string,
    lessonProgress: string)

  /** `PROGRESS_BY_STATUS[status] ?? 40`. */
  function ProgressOf(status: Option<string>): int
  {
    match status
    case Some("planned") => 15
    case Some("ongoing") => 55
    case Some("completed") => 100
    case Some("cancelled") => 0
    case _ => 40
  }

  /** `name.slice(0, 6).toUpperCase()`. */
  function CodeFromName(name: string): string
  {
    ToUpper(if |name| <= 6 then name else name[..6])
  }

  function MapSection(s: SectionDoc): ClassSummary
  {
    var summary := FormatSchedule(s.schedule);
    ClassSummary(
      s.id,
      if s.course.Some? && s.course.value.code.Some? && s.course.value.code.value != [] then s.course.value.code.value
      else if s.name.Some? && s.name.value != [] then CodeFromName(s.name.value) else "CLASS",
      if s.course.Some? && s.course.value.name.Some? && s.course.value.name.value != [] then s.course.value.name.value
      else Records.OrElse(s.name, "Untitled class"),
      if s.teacher.Some? then Records.OrElse(s.teacher.value.fullName, Records.OrElse(s.teacher.value.email, "TBD")) else "TBD",
      ProgressOf(s.status),
      summary.timeLabel,
      summary.room,
      NatToString(summary.lessonCount))
  }

  /**
   * The progress is the table value for the four statuses and 40 for any other value; the code
   * is the course's, else the first six letters of the section name in upper case, else 'CLASS';
   * every text the card shows is non-empty; the lesson count is the schedule's length in digits.
   */
  lemma MapSectionFacts(s: SectionDoc)
    ensures var c := MapSection(s);
      c.progress == (match s.status
        case Some("planned") => 15 case Some("ongoing") => 55
        case Some("completed") => 100 case Some("cancelled") => 0 case _ => 40) &&
      0 <= c.progress <= 100
    ensures var c := MapSection(s);
      (s.course.None? || s.course.value.code.None? || s.course.value.code.value == []) &&
      s.name.Some? && s.name.value != [] ==>
        |c.courseCode| == (if |s.name.value| < 6 then |s.name.value| else 6) &&
        forall i :: 0 <= i < |c.courseCode| ==> c.courseCode[i] == UpperChar(s.name.value[i])
    ensures var c := MapSection(s);
      c.courseCode != [] && c.courseName != [] && c.instructor != [] && c.schedule != [] && c.room != []
    ensures var c := MapSection(s);
      c.lessonProgress == NatToString(FormatSchedule(s.schedule).lessonCount) &&
      DigitsValue(c.lessonProgress) == (if s.schedule.Some? then |s.schedule.value| else 0)
  {
    NatToStringRoundTrip(FormatSchedule(s.schedule).lessonCount);
  }

  // ---------------------------------------------------------------- mapTicket, mapNotification

  /** A ticket; `createdAt` is its `toISOString()` text when present. */
  datatype Ticket = Ticket(id: string, title: string, kind: Option<string>, status: string, createdAt: Option<string>)

  datatype AssignmentSummary = AssignmentSummary(id: string, title: string, courseCode: string, deadline: string,
                                                 status: AssignmentStatus)

  /** `mapTicket`; `now` is the current time's ISO text. */
  function MapTicket(t: Ticket, now: string): AssignmentSummary
  {
    AssignmentSummary(t.id, t.title,
      if t.kind.Some? && t.kind.value != [] then ToUpper(t.kind.value) else "TASK",
      t.createdAt.GetOr(now),
      ToAssignmentStatus(t.status))
  }

  datatype Notification = Notification(id: string, title: string, message: string, createdAt: Option<string>)

  datatype NotificationSummary = NotificationSummary(id: string, title: string, description: string, time: string)

  function MapNotification(n: Notification, now: string): NotificationSummary
  {
    NotificationSummary(n.id, n.title, n.message, n.createdAt.GetOr(now))
  }

  // ---------------------------------------------------------------- mapCourse

  datatype CourseSummary = CourseSummary(
    id: string,
    code: Option<string>,
    name: Option<string>,
    status: Records.CourseStatus,
    instructor: string,
    schedule: string,
    room: string,
    credits: int,
    enrolled: int,
    capacity: int)

  function MapCourse(c: Records.Course): CourseSummary
  {
    CourseSummary(
      if c.id != [] then c.id else Records.OrElse(c.code, ""),
      c.code, c.name, c.status,
      Records.OrElse(c.instructor, "TBD"), Records.OrElse(c.schedule, "TBD"), Records.OrElse(c.room, "TBD"),
      c.credits.GetOr(3), c.enrolled.GetOr(0), c.capacity.GetOr(60))
  }

  /**
   * Absent credits, enrolled and capacity become 3, 0 and 60 (`??` keeps a stored 0, unlike the
   * `|| 3` of the grade reports), an absent or empty instructor, schedule or room becomes 'TBD',
   * and code, name and status pass through.
   */
  lemma MapCourseFacts(c: Records.Course)
    ensures var m := MapCourse(c);
      m.credits == (if c.credits.Some? then c.credits.value else 3) &&
      m.enrolled == (if c.enrolled.Some? then c.enrolled.value else 0) &&
      m.capacity == (if c.capacity.Some? then c.capacity.value else 60) &&
      (c.credits == Some(0) ==> m.credits == 0 && Records.CreditsOf(c) == 3)
    ensures var m := MapCourse(c);
      m.instructor == (if c.instructor.Some? && c.instructor.value != [] then c.instructor.value else "TBD") &&
      m.schedule == (if c.schedule.Some? && c.schedule.value != [] then c.schedule.value else "TBD") &&
      m.room == (if c.room.Some? && c.room.value != [] then c.room.value else "TBD") &&
      m.code == c.code && m.name == c.name && m.status == c.status
  {
  }

  // ---------------------------------------------------------------- getDashboard figures

  /** `countDocuments({ status: 'completed' })` over the sections. */
  function CountCompleted(sections: seq<SectionDoc>): nat
  {
    if sections == [] then 0
    else CountCompleted(sections[..|sections| - 1]) + (if sections[|sections| - 1].status == Some("completed") then 1 else 0)
  }

  lemma {:induction false} CountCompletedBound(sections: seq<SectionDoc>)
    ensures CountCompleted(sections) <= |sections|
    ensures CountCompleted(sections) == |sections| <==> forall i :: 0 <= i < |sections| ==> sections[i].status == Some("completed")
  {
    if sections != [] {
      var init := sections[..|sections| - 1];
      CountCompletedBound(init);
      assert forall i :: 0 <= i < |init| ==> init[i] == sections[i];
    }
  }

  /** `learningProgress`: the rounded percentage of completed sections, 0 without sections. */
  function LearningProgress(completed: nat, total: nat): int
  {
    if total > 0 then Round(PercentOf(completed as real, total as real)) else 0
  }

  function Min(a: int, b: int): int { if a <= b then a else b }
  function Max(a: int, b: int): int { if a >= b then a else b }

  /** `averageGradeValue`: 60 plus 40 points scaled by the progress, clamped to [60, 100]. */
  function AverageGradeValue(completed: nat, total: nat): int
  {
    if total > 0 then Min(100, Max(60, 60 + Round(LearningProgress(completed, total) as real / 100.0 * 40.0))) else 0
  }

  /**
   * With sections, the progress is round(completed / total * 100), within [0, 100] and 100 when
   * all are completed; without, it is 0. The average grade is 0 without sections and otherwise
   * lies in [60, 100], reaching 100 when every section is completed; as completed never exceeds
   * total, the clamp never has to act.
   */
  lemma FiguresFacts(completed: nat, total: nat)
    requires completed <= total
    ensures total == 0 ==> LearningProgress(completed, total) == 0 && AverageGradeValue(completed, total) == 0
    ensures total > 0 ==>
      LearningProgress(completed, total) == Round(Percent(completed as real, total as real)) &&
      0 <= LearningProgress(completed, total) <= 100 &&
      60 <= AverageGradeValue(completed, total) <= 100 &&
      AverageGradeValue(completed, total) == 60 + Round(LearningProgress(completed, total) as real * 2.0 / 5.0)
    ensures total > 0 && completed == total ==>
      LearningProgress(completed, total) == 100 && AverageGradeValue(completed, total) == 100
  {
    if total > 0 {
      var p := PercentOf(completed as real, total as real);
      RoundBetween(p, 0, 100);
      var lp := LearningProgress(completed, total);
      assert lp as real / 100.0 * 40.0 == lp as real * 2.0 / 5.0;
      RoundBetween(lp as real * 2.0 / 5.0, 0, 40);
      PercentOfWhole(completed as real, total as real);
      if completed == total {
        RoundOfInt(100);
        RoundOfInt(40);
        assert 100.0 * 2.0 / 5.0 == 40 as real;
      }
    }
  }

  /** More completed sections never lower either figure. */
  lemma FiguresMonotone(c1: nat, c2: nat, total: nat)
    requires c1 <= c2 <= total
    ensures LearningProgress(c1, total) <= LearningProgress(c2, total)
    ensures AverageGradeValue(c1, total) <= AverageGradeValue(c2, total)
  {
    if total > 0 {
      var t := total as real;
      assert (c2 as real - c1 as real) / t >= 0.0;
      assert c1 as real / t <= c2 as real / t;
      RoundMonotone(PercentOf(c1 as real, t), PercentOf(c2 as real, t));
      var l1 := LearningProgress(c1, total);
      var l2 := LearningProgress(c2, total);
      RoundMonotone(l1 as real / 100.0 * 40.0, l2 as real / 100.0 * 40.0);
    }
  }

  // ---------------------------------------------------------------- getDashboard

  /** The user shown: the oldest account's name, else its email, else the generic learner. */
  datatype UserRef = UserRef(fullName: Option<string>, email: Option<string>)

  datatype Stats = Stats(enrolledCourses: nat, pendingAssignments: nat, averageGrade: string, learningProgress: int)

  datatype Dashboard = Dashboard(
    userName: string,
    stats: Stats,
    classes: seq<ClassSummary>,
    assignments: seq<AssignmentSummary>,
    notifications: seq<NotificationSummary>,
    courses: seq<CourseSummary>)

  function Take<T>(xs: seq<T>, n: nat): (r: seq<T>)
    ensures |r| == (if |xs| <= n then |xs| else n) && r == xs[..|r|]
  {
    if |xs| <= n then xs else xs[..n]
  }

  /** `countDocuments({ status: { $in: PENDING_TICKET_STATUSES } })`. */
  function CountPending(tickets: seq<Ticket>): nat
  {
    if tickets == [] then 0
    else CountPending(tickets[..|tickets| - 1]) + (if tickets[|tickets| - 1].status in PendingTicketStatuses then 1 else 0)
  }

  /**
   * `getDashboard`, on the collections in the order its queries sort them (sections by start
   * date, tickets and notifications newest first, users oldest first) and on the public
   * courses the course listing returns.
   */
  function GetDashboard(sections: seq<SectionDoc>, tickets: seq<Ticket>, notifications: seq<Notification>,
                        users: seq<UserRef>, publicCourses: seq<Records.Course>, now: string): Dashboard
  {
    var total := |sections|;
    var completed := CountCompleted(sections);
    var classes := Take(Take(sections, SectionQueryLimit), ClassLimit);
    var recentTickets := Take(tickets, AssignmentLimit);
    var recentNotes := Take(notifications, NotificationLimit);
    var name := if users == [] then "Học viên" else Records.OrElse(users[0].fullName, Records.OrElse(users[0].email, "Học viên"));
    Dashboard(
      name,
      Stats(total, CountPending(tickets), IntToString(AverageGradeValue(completed, total)), LearningProgress(completed, total)),
      seq(|classes|, i requires 0 <= i < |classes| => MapSection(classes[i])),
      seq(|recentTickets|, i requires 0 <= i < |recentTickets| => MapTicket(recentTickets[i], now)),
      seq(|recentNotes|, i requires 0 <= i < |recentNotes| => MapNotification(recentNotes[i], now)),
      seq(|publicCourses|, i requires 0 <= i < |publicCourses| => MapCourse(publicCourses[i])))
  }

  /**
   * At most four classes, the first four sections mapped in order; at most four tickets and four
   * notifications, newest first; every public course mapped.
   */
  lemma DashboardLists(sections: seq<SectionDoc>, tickets: seq<Ticket>, notifications: seq<Notification>,
                       users: seq<UserRef>, publicCourses: seq<Records.Course>, now: string)
    ensures var d := GetDashboard(sections, tickets, notifications, users, publicCourses, now);
      |d.classes| == (if |sections| < 4 then |sections| else 4) &&
      (forall i :: 0 <= i < |d.classes| ==> d.classes[i] == MapSection(sections[i])) &&
      |d.assignments| == (if |tickets| < 4 then |tickets| else 4) &&
      (forall i :: 0 <= i < |d.assignments| ==> d.assignments[i] == MapTicket(tickets[i], now)) &&
      |d.notifications| == (if |notifications| < 4 then |notifications| else 4) &&
      |d.courses| == |publicCourses|
  {
    var d := GetDashboard(sections, tickets, notifications, users, publicCourses, now);
    var classes := Take(Take(sections, SectionQueryLimit), ClassLimit);
    assert d.classes == seq(|classes|, i requires 0 <= i < |classes| => MapSection(classes[i]));
    var recentTickets := Take(tickets, AssignmentLimit);
    assert d.assignments == seq(|recentTickets|, i requires 0 <= i < |recentTickets| => MapTicket(recentTickets[i], now));
  }

  /**
   * The section total as enrolled courses, at most one pending assignment per ticket, and the
   * two figures computed from the completed count.
   */
  lemma DashboardStats(sections: seq<SectionDoc>, tickets: seq<Ticket>, notifications: seq<Notification>,
                       users: seq<UserRef>, publicCourses: seq<Records.Course>, now: string)
    ensures var d := GetDashboard(sections, tickets, notifications, users, publicCourses, now);
      d.stats.enrolledCourses == |sections| &&
      d.stats.pendingAssignments <= |tickets| &&
      0 <= d.stats.learningProgress <= 100 &&
      (sections == [] ==> d.stats.learningProgress == 0 && d.stats.averageGrade == "0") &&
      (sections != [] ==>
        (60 <= AverageGradeValue(CountCompleted(sections), |sections|) <= 100 &&
         d.stats.averageGrade == NatToString(AverageGradeValue(CountCompleted(sections), |sections|))))
  {
    CountCompletedBound(sections);
    FiguresFacts(CountCompleted(sections), |sections|);
    CountPendingBound(tickets);
  }

  lemma {:induction false} CountPendingBound(tickets: seq<Ticket>)
    ensures CountPending(tickets) <= |tickets|
  {
    if tickets != [] {
      CountPendingBound(tickets[..|tickets| - 1]);
    }
  }
}
