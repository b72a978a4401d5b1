/**
  What a change request asks of a schedule day: ScheduleDayChangeInput of internal/db/schedules.go.
 */
module DayChanges {
  import opened OpenTimes
  import opened Wrappers

  /** Only the provided parts change; a provided time may be null. */
  datatype ScheduleChanges = ScheduleChanges(
    day: Option<string>, opensAt: Option<Option<int>>, closesAt: Option<Option<int>>)

  /** Both times given as null: the day goes. */
  predicate DeletesDay(c: ScheduleChanges)
  {
    c.opensAt == Some(None) && c.closesAt == Some(None)
  }

  /** The day after a change that keeps it. */
  function ChangedDay(d: ScheduleDay, c: ScheduleChanges): ScheduleDay
  {
    ScheduleDay(c.day.GetOr(d.day), c.opensAt.GetOr(d.opensAt), c.closesAt.GetOr(d.closesAt))
  }
}
