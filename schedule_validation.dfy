/**
 * `validateScheduleDayOfWeek`: every schedule item's `dayOfWeek` must be a number from 2 to 7.
 * A value that is not an array passes; the first failing item decides the outcome.
 */
module ScheduleValidation {
  import opened Wrappers
  import opened Json

  /**
   * The outcome for one item or a whole schedule: `Valid` (the function returns null),
   * `Invalid` (it returns the message) or `Throws` (reading `dayOfWeek` of a null or
   * undefined item raises a TypeError).
   */
  datatype Verdict = Valid | Invalid | Throws

  const InvalidDayOfWeek: string := "Invalid dayOfWeek"

  /** What the function returns for a verdict that does not throw. */
  function Message(v: Verdict): (r: Option<string>)
    requires !v.Throws?
    ensures r.None? <==> v.Valid?
  {
    if v.Valid? then None else Some(InvalidDayOfWeek)
  }

  /** A day number the validators accept. */
  predicate NumericDay(d: Value)
  {
    d.Num? && 2.0 <= d.n <= 7.0
  }

  /** The check applied to one item. */
  function ItemVerdict(item: Value): Verdict
  {
    match Property(item, "dayOfWeek")
    case None => Throws
    case Some(d) => if NumericDay(d) then Valid else Invalid
  }

  /** The items' verdict: that of the first item that is not valid, or `Valid`. */
  function ItemsVerdict(items: seq<Value>): Verdict
  {
    if items == [] then Valid
    else if ItemVerdict(items[0]) != Valid then ItemVerdict(items[0])
    else ItemsVerdict(items[1..])
  }

  /** The function's outcome on its argument, array or not. */
  function ScheduleVerdict(schedule: Value): Verdict
  {
    if schedule.Arr? then ItemsVerdict(schedule.items) else Valid
  }

  /** A schedule passes exactly when every item passes. */
  lemma {:induction false} AllValid(items: seq<Value>)
    ensures ItemsVerdict(items) == Valid <==> forall i :: 0 <= i < |items| ==> ItemVerdict(items[i]) == Valid
  {
    if items != [] {
      AllValid(items[1..]);
      assert forall i :: 1 <= i < |items| ==> items[i] == items[1..][i - 1];
    }
  }

  /** The first failing item decides: what follows it is never looked at. */
  lemma {:induction false} FirstBad(items: seq<Value>, i: nat)
    requires i < |items| && ItemVerdict(items[i]) != Valid
    requires forall j :: 0 <= j < i ==> ItemVerdict(items[j]) == Valid
    ensures ItemsVerdict(items) == ItemVerdict(items[i])
    decreases i
  {
    if i > 0 {
      FirstBad(items[1..], i - 1);
    }
  }

  /**
   * A value that is not an array passes, and so does an empty array. An array passes exactly
   * when every item's dayOfWeek is a number in [2, 7]; it throws only on a null or undefined
   * item; and any item whose dayOfWeek is a string, day names included, fails it.
   */
  lemma ScheduleVerdictFacts(schedule: Value)
    ensures !schedule.Arr? ==> ScheduleVerdict(schedule) == Valid
    ensures schedule == Arr([]) ==> ScheduleVerdict(schedule) == Valid
    ensures schedule.Arr? ==>
      (ScheduleVerdict(schedule) == Valid <==>
        forall i :: 0 <= i < |schedule.items| ==>
          Property(schedule.items[i], "dayOfWeek").Some? && NumericDay(Property(schedule.items[i], "dayOfWeek").value))
    ensures schedule.Arr? && ScheduleVerdict(schedule) == Throws ==>
      exists i :: 0 <= i < |schedule.items| && (schedule.items[i].Null? || schedule.items[i].Undefined?)
    ensures forall i :: (schedule.Arr? && 0 <= i < |schedule.items| && schedule.items[i].Obj? &&
      Get(schedule.items[i].fields, "dayOfWeek").Str?) ==> ScheduleVerdict(schedule) != Valid
  {
    if schedule.Arr? {
      var items := schedule.items;
      AllValid(items);
      if ItemsVerdict(items) == Throws {
        var i := FirstBadIndex(items);
        FirstBad(items, i);
      }
    }
  }

  /** The index of the first item that is not valid, where there is one. */
  lemma FirstBadIndex(items: seq<Value>) returns (i: nat)
    requires ItemsVerdict(items) != Valid
    ensures i < |items| && ItemVerdict(items[i]) != Valid
    ensures forall j :: 0 <= j < i ==> ItemVerdict(items[j]) == Valid
  {
    AllValid(items);
    i := 0;
    while ItemVerdict(items[i]) == Valid
      invariant i < |items|
      invariant forall j :: 0 <= j < i ==> ItemVerdict(items[j]) == Valid
      decreases |items| - i
    {
      i := i + 1;
    }
  }

  /** `validateScheduleDayOfWeek(schedule)`, with an `isValid` flag per item and an early return. */
  method ValidateScheduleDayOfWeek(schedule: Value) returns (r: Verdict)
    ensures r == ScheduleVerdict(schedule)
  {
    if !schedule.Arr? {
      return Valid;
    }
    var items := schedule.items;
    for i := 0 to |items|
      invariant forall j :: 0 <= j < i ==> ItemVerdict(items[j]) == Valid
    {
      var day := Property(items[i], "dayOfWeek");
      if day.None? {
        FirstBad(items, i);
        return Throws;
      }
      var isValid := false;
      if day.value.Num? {
        if 2.0 <= day.value.n <= 7.0 {
          isValid := true;
        }
      }
      if !isValid {
        FirstBad(items, i);
        return Invalid;
      }
    }
    AllValid(items);
    return Valid;
  }
}
