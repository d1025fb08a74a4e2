/**
  Local wall-clock time as integers. The app reads hour, minute, second and
  weekday off `Date` values through `Calendar.current`; here an instant is a
  whole day number plus the minute of that day and the second of that minute.
  Day 0 is 1970-01-01, a Thursday. Time zones and daylight saving are not
  modelled: every day has 1440 minutes.
*/
module Clock {
  import opened Wrappers

  const MinutesPerDay: int := 1440
  const SecondsPerDay: int := 86400
  const DaysPerWeek: int := 7

  type MinuteOfDay = m: int | 0 <= m < 1440
  type SecondOfMinute = s: int | 0 <= s < 60

  /** Calendar weekday numbering: 1 = Sunday, 2 = Monday, ..., 7 = Saturday. */
  type WeekdayNumber = w: int | 1 <= w <= 7 witness 1

  const Sunday: WeekdayNumber := 1
  const Saturday: WeekdayNumber := 7

  datatype Instant = Instant(day: int, minuteOfDay: MinuteOfDay, second: SecondOfMinute) {
    /** The hour component, 0..23. */
    function Hour(): int { minuteOfDay / 60 }
    /** The minute-of-hour component, 0..59. */
    function Minute(): int { minuteOfDay % 60 }
  }

  /** Seconds since 1970-01-01 00:00:00 local time (`timeIntervalSince1970`, whole seconds). */
  function ToSeconds(t: Instant): int {
    t.day * SecondsPerDay + t.minuteOfDay * 60 + t.second
  }

  /** The instant lying `n` seconds after the epoch; the inverse of `ToSeconds`. */
  function FromSeconds(n: int): (t: Instant)
    ensures ToSeconds(t) == n
  {
    var day := n / SecondsPerDay;
    var rest := n % SecondsPerDay;
    assert n == day * SecondsPerDay + rest;
    assert rest == (rest / 60) * 60 + rest % 60;
    Instant(day, rest / 60, rest % 60)
  }

  /** Two instants are the same instant iff they are the same number of seconds from the epoch. */
  lemma ToSecondsInjective(a: Instant, b: Instant)
    requires ToSeconds(a) == ToSeconds(b)
    ensures a == b
  {
    assert a.day == b.day;
  }

  lemma FromSecondsRoundTrip(t: Instant)
    ensures FromSeconds(ToSeconds(t)) == t
  {
    ToSecondsInjective(FromSeconds(ToSeconds(t)), t);
  }

  /** `date.addingTimeInterval(n)` for a whole number of seconds. */
  function AddSeconds(t: Instant, n: int): (r: Instant)
    ensures ToSeconds(r) == ToSeconds(t) + n
  {
    FromSeconds(ToSeconds(t) + n)
  }

  /** The weekday of a day number (1970-01-01 is a Thursday, weekday 5). */
  function Weekday(day: int): (w: WeekdayNumber)
    ensures day == 0 ==> w == 5
  {
    (day + 4) % DaysPerWeek + 1
  }

  /** The weekday before `w`, wrapping Sunday (1) back to Saturday (7). */
  function YesterdayOf(w: WeekdayNumber): (y: WeekdayNumber)
    ensures w == Sunday ==> y == Saturday
    ensures w != Sunday ==> y == w - 1
  {
    (w + 5) % DaysPerWeek + 1
  }

  /** The weekday of the previous day is the wrapped predecessor of today's weekday. */
  lemma WeekdayOfPreviousDay(day: int)
    ensures Weekday(day - 1) == YesterdayOf(Weekday(day))
  {
    var r := (day + 4) % DaysPerWeek;
    assert day + 4 == ((day + 4) / DaysPerWeek) * DaysPerWeek + r;
    if r == 0 {
      assert day + 3 == ((day + 4) / DaysPerWeek - 1) * DaysPerWeek + 6;
    } else {
      assert day + 3 == ((day + 4) / DaysPerWeek) * DaysPerWeek + (r - 1);
    }
  }

  /** Hour and minute as read off a date by `dateComponents([.hour, .minute], from:)`; either may be absent. */
  datatype TimeComponents = TimeComponents(hour: Option<int>, minute: Option<int>)

  /** The hour and minute of an instant; the day and the second are dropped. */
  function ComponentsOf(t: Instant): (c: TimeComponents)
    ensures c.hour.Some? && c.minute.Some?
    ensures 0 <= c.hour.value < 24 && 0 <= c.minute.value < 60
    ensures c.hour.value * 60 + c.minute.value == t.minuteOfDay
  {
    TimeComponents(Some(t.Hour()), Some(t.Minute()))
  }
}
