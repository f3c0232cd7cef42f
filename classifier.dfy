/**
 * The deadline-urgency classifier of TaskService: the time left until a
 * task's deadline, split into whole days and the whole hours after them,
 * picks one of three colours, or none.
 */
module Classifier {
  import opened Records

  const HourMs: int := 3_600_000
  const DayMs: int := 24 * HourMs

  /** The status string: 'green', 'yellow', 'red', or '' when no branch fires. */
  datatype Status = Green | Yellow | Red | NoStatus

  /** The Luxon duration in days, hours and the rest (the source's fractional minutes) in milliseconds. */
  datatype Duration = Duration(days: int, hours: int, rest: int)

  /** A task together with the status added to it. */
  datatype Transformed = Transformed(task: Task, status: Status)

  /** Integer division truncating toward zero (Dafny's `/` is Euclidean). */
  function TruncDiv(a: int, b: int): (q: int)
    requires b > 0
    ensures a >= 0 ==> 0 <= a - q * b < b
    ensures a < 0 ==> -b < a - q * b <= 0
  {
    if a >= 0 then a / b else -((-a) / b)
  }

  /**
   * The time from `now` to `deadline` as whole days, then whole hours, then
   * the remainder; every component carries the sign of the whole.
   */
  function TimeLeft(deadline: int, now: int): (d: Duration)
    ensures d.days * DayMs + d.hours * HourMs + d.rest == deadline - now
    ensures deadline >= now ==> d.days >= 0 && 0 <= d.hours < 24 && 0 <= d.rest < HourMs
    ensures deadline < now ==> d.days <= 0 && -24 < d.hours <= 0 && -HourMs < d.rest <= 0
  {
    var left := deadline - now;
    var days := TruncDiv(left, DayMs);
    var afterDays := left - days * DayMs;
    var hours := TruncDiv(afterDays, HourMs);
    Duration(days, hours, afterDays - hours * HourMs)
  }

  /** The branch chain on whole days and hours; no branch fires exactly when 1 <= days < 3. */
  function StatusOf(days: int, hours: int): (s: Status)
    ensures s == NoStatus <==> 1 <= days < 3
    ensures s == Red ==> days < 1 && hours <= 3
  {
    if days >= 3 then Green
    else if days < 1 && hours > 3 then Yellow
    else if days < 1 && hours <= 3 then Red
    else NoStatus
  }

  /** The task with its status added; no field of the task changes. */
  function DataTransformer(task: Task, now: int): (r: Transformed)
    ensures r.task == task
    ensures r.status == NoStatus <==> 1 <= TimeLeft(task.deadline, now).days < 3
  {
    var left := TimeLeft(task.deadline, now);
    Transformed(task, StatusOf(left.days, left.hours))
  }

  /** Reference definition: the tier as a function of the milliseconds left alone. */
  function UrgencyOf(left: int): Status
  {
    if left >= 3 * DayMs then Green
    else if left >= DayMs then NoStatus
    else if left >= 4 * HourMs then Yellow
    else Red
  }

  /** The day/hour branch chain agrees with plain thresholds on the time left. */
  lemma DataTransformerMatchesThresholds(task: Task, now: int)
    ensures DataTransformer(task, now).status == UrgencyOf(task.deadline - now)
  {
    var left := task.deadline - now;
    var d := TimeLeft(task.deadline, now);
    if left >= 0 {
      assert d.days >= 3 <==> left >= 3 * DayMs;
      assert d.days < 1 <==> left < DayMs;
      if d.days < 1 {
        assert d.days == 0;
        assert d.hours > 3 <==> left >= 4 * HourMs;
      }
    } else {
      assert d.days < 1 && d.hours <= 3;
    }
  }

  /** Three whole days or more left: green. */
  lemma GreenFromThreeDays(task: Task, now: int)
    requires task.deadline - now >= 3 * DayMs
    ensures DataTransformer(task, now).status == Green
  {
    DataTransformerMatchesThresholds(task, now);
  }

  /** Under a day but more than three whole hours left: yellow. */
  lemma YellowWithinADay(task: Task, now: int)
    requires 4 * HourMs <= task.deadline - now < DayMs
    ensures DataTransformer(task, now).status == Yellow
  {
    DataTransformerMatchesThresholds(task, now);
  }

  /** At most three whole hours left, and every deadline already passed: red. */
  lemma RedWhenShortOrPast(task: Task, now: int)
    requires task.deadline - now < 4 * HourMs
    ensures DataTransformer(task, now).status == Red
  {
    DataTransformerMatchesThresholds(task, now);
  }

  /** One or two whole days left: the status stays empty. */
  lemma NoStatusBetweenOneAndThreeDays(task: Task, now: int)
    requires DayMs <= task.deadline - now < 3 * DayMs
    ensures DataTransformer(task, now).status == NoStatus
  {
    DataTransformerMatchesThresholds(task, now);
  }
}
