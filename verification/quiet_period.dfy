/**
  A user-defined weekly window during which notifications are muted
  (`QuietPeriod` in Novelty/Models/QuietPeriod.swift).
*/
module QuietPeriods {
  import opened Wrappers
  import opened Clock

  /** Opaque identifiers (`UUID`). Generating a fresh one is left to the caller. */
  type Uuid = nat

  /**
    Start and end are full dates of which only the hour and minute are ever
    read. `daysOfWeek` holds calendar weekday numbers, 1 = Sunday ... 7 =
    Saturday; being a set it has no duplicates. `id` is never reassigned.
  */
  datatype QuietPeriod = QuietPeriod(
    id: Uuid,
    startTime: Instant,
    endTime: Instant,
    daysOfWeek: set<int>,
    name: Option<string>,
    isEnabled: bool)

  /** The memberwise initializer with its defaults: no name and enabled. */
  function NewQuietPeriod(
    id: Uuid,
    startTime: Instant,
    endTime: Instant,
    daysOfWeek: set<int>,
    name: Option<string> := None,
    isEnabled: bool := true): (p: QuietPeriod)
    ensures p.id == id && p.daysOfWeek == daysOfWeek
    ensures p.startTime == startTime && p.endTime == endTime
    ensures p.name == name && p.isEnabled == isEnabled
  {
    QuietPeriod(id, startTime, endTime, daysOfWeek, name, isEnabled)
  }

  /** `startTimeComponents`: hour and minute of the start; the date part is ignored. */
  function StartComponents(p: QuietPeriod): TimeComponents {
    ComponentsOf(p.startTime)
  }

  /** `endTimeComponents`: hour and minute of the end; the date part is ignored. */
  function EndComponents(p: QuietPeriod): TimeComponents {
    ComponentsOf(p.endTime)
  }

  /** Turns a period off without deleting it; everything else, its id included, is kept. */
  function Disabled(p: QuietPeriod): (q: QuietPeriod)
    ensures !q.isEnabled
    ensures q.(isEnabled := p.isEnabled) == p
  {
    p.(isEnabled := false)
  }

  /** Defaults of the initializer, as a caller that passes only the required arguments sees them. */
  lemma InitializerDefaults(id: Uuid, s: Instant, e: Instant, days: set<int>)
    ensures NewQuietPeriod(id, s, e, days).isEnabled
    ensures NewQuietPeriod(id, s, e, days).name == None
    ensures NewQuietPeriod(id, s, e, days).id == id
  {
  }

  /** Components depend only on the minute of the day, never on the date. */
  lemma ComponentsIgnoreDate(p: QuietPeriod, q: QuietPeriod)
    requires p.startTime.minuteOfDay == q.startTime.minuteOfDay
    requires p.endTime.minuteOfDay == q.endTime.minuteOfDay
    ensures StartComponents(p) == StartComponents(q)
    ensures EndComponents(p) == EndComponents(q)
  {
  }
}
